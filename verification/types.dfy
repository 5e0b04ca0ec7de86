/** Values shared by the whole model: identifiers, rows of the three tables and errors. */
module Types {

  datatype Option<+T> = None | Some(value: T)

  datatype Result<+T, +E> = Ok(value: T) | Err(error: E)

  type Robohash = string
  type OfferId = string
  type Txid = string
  type Hex = string
  type Address = string

  /** The ways a handler fails; Database stands for a statement that found no row, Unimplemented
      for the branch that panics. */
  datatype RequestError =
    | NotFound | NotConfirmed | AlreadySubmitted | Database | PsbtInvalid | CoordinatorError | Unimplemented

  /** An offer as the orderbook query shows it to takers. */
  datatype PublicOffer = PublicOffer(offerId: OfferId, amountSat: nat, requirements: BondRequirementResponse)

  /** The two columns that tell whether payout or dispute handling may begin. */
  datatype TraderHappiness = TraderHappiness(makerHappy: Option<bool>, takerHappy: Option<bool>, escrowOngoing: bool)

  datatype EscrowCase = EscrowCase(offerId: OfferId, maker: Robohash, taker: Robohash)

  datatype OutPoint = OutPoint(txid: Txid, vout: nat)

  /** An escrow input as a trader hands it in. */
  datatype PsbtInput = PsbtInput(witnessValue: Option<nat>, outpoint: OutPoint)

  /** What a maker asks for. */
  datatype OfferRequest = OfferRequest(
    robohash: Robohash,
    isBuyOrder: bool,
    amountSat: nat,
    bondRatio: nat,
    offerDurationTs: nat)

  /** What the coordinator demands before an offer is listed or taken. */
  datatype BondRequirementResponse = BondRequirementResponse(
    bondAddress: Address,
    lockingAmountSat: nat,
    requiredInputSat: nat)

  datatype BondRequirements = BondRequirements(
    bondAddress: Address,
    lockingAmountSat: nat,
    minInputSumSat: nat)

  /** The bond and trade data a trader submits. */
  datatype BondSubmission = BondSubmission(
    robohash: Robohash,
    signedBondHex: Hex,
    payoutAddress: Address,
    taprootPubkeyHex: Hex,
    musigPubNonceHex: Hex,
    musigPubkeyHex: Hex,
    inputsHexCsv: string,
    changeAddress: Address)

  /** The escrow transaction as created for one trade. */
  datatype EscrowPsbt = EscrowPsbt(
    psbtHex: Hex,
    txid: Txid,
    descriptor: string,
    coordinatorPk: Hex,
    amountMakerSat: nat,
    amountTakerSat: nat,
    feePerParticipantSat: nat)

  /** A row of maker_requests; the maker's robohash is its key. */
  datatype MakerRequest = MakerRequest(
    isBuyOrder: Option<int>,
    amountSat: nat,
    bondRatio: nat,
    offerDurationTs: nat,
    bondAddress: Address,
    bondAmountSat: nat,
    requiredInputSat: nat)

  /** A row of active_maker_offers; the offer id is its key. */
  datatype ActiveOffer = ActiveOffer(
    robohash: Robohash,
    isBuyOrder: Option<int>,
    amountSat: nat,
    bondRatio: nat,
    offerDurationTs: nat,
    bondAddress: Address,
    bondAmountSat: nat,
    requiredInputSat: nat,
    bondTxHex: Hex,
    payoutAddress: Address,
    changeAddress: Address,
    inputsHexCsv: string,
    taprootPubkeyHex: Hex,
    musigPubNonceHex: Hex,
    musigPubkeyHex: Hex,
    takerBondAddress: Address)

  /** The columns of a taken_offers row that no statement ever updates. */
  datatype Terms = Terms(
    robohashMaker: Robohash,
    robohashTaker: Robohash,
    isBuyOrder: Option<int>,
    amountSat: nat,
    bondRatio: nat,
    offerDurationTs: nat,
    bondAddressMaker: Address,
    bondAddressTaker: Address,
    bondAmountSat: nat,
    bondTxHexMaker: Hex,
    bondTxHexTaker: Hex,
    payoutAddressMaker: Address,
    payoutAddressTaker: Address,
    taprootPubkeyHexMaker: Hex,
    taprootPubkeyHexTaker: Hex,
    musigPubNonceHexMaker: Hex,
    musigPubNonceHexTaker: Hex,
    musigPubkeyHexMaker: Hex,
    musigPubkeyHexTaker: Hex,
    escrow: EscrowPsbt)

  /** A row of taken_offers; the offer id is its key. */
  datatype TakenOffer = TakenOffer(
    terms: Terms,
    confirmed: int,
    signedPsbtMaker: Option<Hex>,
    signedPsbtTaker: Option<Hex>,
    partialSigMaker: Option<Hex>,
    partialSigTaker: Option<Hex>,
    makerHappy: Option<int>,
    takerHappy: Option<int>,
    escrowOngoing: int,
    escrowWinner: Option<Robohash>,
    payoutPsbt: Option<Hex>,
    processing: int)
}
