/** What each SQL statement does to one row, and what it reads from it.
    The table class and the transition systems are both built on these functions. */
module Statements {
  import opened Types

  /** `false` is stored as NULL, never as 0. */
  function BoolToSqlInt(flag: bool): Option<int> {
    if flag then Some(1) else None
  }

  /** SQL `column = v`: a NULL column matches nothing. */
  predicate SqlEquals(column: Option<int>, v: int) {
    column == Some(v)
  }

  /** An integer column read without asking for NULL: NULL reads as 0. */
  function ReadInt(column: Option<int>): int {
    match column
    case Some(v) => v
    case None => 0
  }

  /** The only values a flag written through BoolToSqlInt ever has. */
  predicate NullOrOne(column: Option<int>) {
    column == None || column == Some(1)
  }

  /** A flag column of a later table, written from the same flag of an earlier one. */
  predicate SameFlag(later: Option<int>, earlier: Option<int>) {
    later == if earlier.Some? && earlier.value != 0 then Some(1) else None
  }

  // ---- what the three INSERT statements bind, column by column ----

  predicate RequestColumns(row: MakerRequest, order: OfferRequest, requirements: BondRequirementResponse) {
    && row.isBuyOrder == (if order.isBuyOrder then Some(1) else None)
    && row.amountSat == order.amountSat
    && row.bondRatio == order.bondRatio
    && row.offerDurationTs == order.offerDurationTs
    && row.bondAddress == requirements.bondAddress
    && row.bondAmountSat == requirements.lockingAmountSat
    && row.requiredInputSat == requirements.requiredInputSat
  }

  /** Columns of an orderbook row that come from the pending request. */
  predicate OrderColumns(row: ActiveOffer, request: MakerRequest) {
    && SameFlag(row.isBuyOrder, request.isBuyOrder)
    && row.amountSat == request.amountSat
    && row.bondRatio == request.bondRatio
    && row.offerDurationTs == request.offerDurationTs
    && row.bondAddress == request.bondAddress
    && row.bondAmountSat == request.bondAmountSat
    && row.requiredInputSat == request.bondAmountSat
  }

  /** Columns of an orderbook row that come from the maker's submission. */
  predicate SubmissionColumns(row: ActiveOffer, data: BondSubmission, takerBondAddress: Address) {
    && row.robohash == data.robohash
    && row.bondTxHex == data.signedBondHex
    && row.payoutAddress == data.payoutAddress
    && row.changeAddress == data.changeAddress
    && row.inputsHexCsv == data.inputsHexCsv
    && row.taprootPubkeyHex == data.taprootPubkeyHex
    && row.musigPubNonceHex == data.musigPubNonceHex
    && row.musigPubkeyHex == data.musigPubkeyHex
    && row.takerBondAddress == takerBondAddress
  }

  /** Columns of a taken row that come from the orderbook row. */
  predicate MakerColumns(t: Terms, offer: ActiveOffer) {
    && t.robohashMaker == offer.robohash
    && SameFlag(t.isBuyOrder, offer.isBuyOrder)
    && t.amountSat == offer.amountSat
    && t.bondRatio == offer.bondRatio
    && t.offerDurationTs == offer.offerDurationTs
    && t.bondAddressMaker == offer.bondAddress
    && t.bondAmountSat == offer.bondAmountSat
    && t.bondTxHexMaker == offer.bondTxHex
    && t.payoutAddressMaker == offer.payoutAddress
    && t.taprootPubkeyHexMaker == offer.taprootPubkeyHex
    && t.musigPubNonceHexMaker == offer.musigPubNonceHex
    && t.musigPubkeyHexMaker == offer.musigPubkeyHex
  }

  /** Columns of a taken row that come from the taker's submission. */
  predicate TakerColumns(t: Terms, taker: BondSubmission, takerBondAddress: Address) {
    && t.robohashTaker == taker.robohash
    && t.bondAddressTaker == takerBondAddress
    && t.bondTxHexTaker == taker.signedBondHex
    && t.payoutAddressTaker == taker.payoutAddress
    && t.taprootPubkeyHexTaker == taker.taprootPubkeyHex
    && t.musigPubNonceHexTaker == taker.musigPubNonceHex
    && t.musigPubkeyHexTaker == taker.musigPubkeyHex
  }

  /** Columns of a taken row that tell how far the trade is: nothing has happened yet. */
  predicate Untouched(row: TakenOffer) {
    && row.confirmed == 0 && row.escrowOngoing == 0 && row.processing == 0
    && row.signedPsbtMaker.None? && row.signedPsbtTaker.None?
    && row.partialSigMaker.None? && row.partialSigTaker.None?
    && row.makerHappy.None? && row.takerHappy.None?
    && row.escrowWinner.None? && row.payoutPsbt.None?
  }

  // ---- rows as the three INSERT statements write them ----

  function RequestRow(order: OfferRequest, requirements: BondRequirementResponse): (row: MakerRequest)
    ensures RequestColumns(row, order, requirements)
  {
    MakerRequest(
      BoolToSqlInt(order.isBuyOrder), order.amountSat, order.bondRatio, order.offerDurationTs,
      requirements.bondAddress, requirements.lockingAmountSat, requirements.requiredInputSat)
  }

  /** The orderbook row of a pending request. The required input figure is taken from the
      bond amount: tuple field 6 is read twice. */
  function ListedRow(request: MakerRequest, data: BondSubmission, takerBondAddress: Address): (row: ActiveOffer)
    ensures OrderColumns(row, request) && SubmissionColumns(row, data, takerBondAddress)
  {
    ActiveOffer(
      data.robohash, BoolToSqlInt(ReadInt(request.isBuyOrder) != 0), request.amountSat, request.bondRatio,
      request.offerDurationTs, request.bondAddress, request.bondAmountSat, request.bondAmountSat,
      data.signedBondHex, data.payoutAddress, data.changeAddress, data.inputsHexCsv,
      data.taprootPubkeyHex, data.musigPubNonceHex, data.musigPubkeyHex, takerBondAddress)
  }

  function TermsOf(offer: ActiveOffer, taker: BondSubmission, takerBondAddress: Address, escrow: EscrowPsbt): (t: Terms)
    ensures MakerColumns(t, offer) && TakerColumns(t, taker, takerBondAddress) && t.escrow == escrow
  {
    Terms(
      offer.robohash, taker.robohash, BoolToSqlInt(ReadInt(offer.isBuyOrder) != 0), offer.amountSat,
      offer.bondRatio, offer.offerDurationTs, offer.bondAddress, takerBondAddress, offer.bondAmountSat,
      offer.bondTxHex, taker.signedBondHex, offer.payoutAddress, taker.payoutAddress,
      offer.taprootPubkeyHex, taker.taprootPubkeyHex, offer.musigPubNonceHex, taker.musigPubNonceHex,
      offer.musigPubkeyHex, taker.musigPubkeyHex, escrow)
  }

  /** A taken_offers row as inserted: no slot is filled and every flag is down. */
  function FreshRow(terms: Terms): (row: TakenOffer)
    ensures row.terms == terms && Untouched(row)
  {
    TakenOffer(terms, 0, None, None, None, None, None, None, 0, None, None, 0)
  }

  // ---- reads of a taken_offers row ----

  predicate IsMember(row: TakenOffer, who: Robohash) {
    row.terms.robohashMaker == who || row.terms.robohashTaker == who
  }

  function TraderId(terms: Terms, isMaker: bool): Robohash {
    if isMaker then terms.robohashMaker else terms.robohashTaker
  }

  /** Whether `who` is the maker; None when it is neither trader. */
  function RoleOf(row: TakenOffer, who: Robohash): Option<bool> {
    if row.terms.robohashMaker == who then Some(true)
    else if row.terms.robohashTaker == who then Some(false)
    else None
  }

  function SignedPsbt(row: TakenOffer, isMaker: bool): Option<Hex> {
    if isMaker then row.signedPsbtMaker else row.signedPsbtTaker
  }

  function PartialSig(row: TakenOffer, isMaker: bool): Option<Hex> {
    if isMaker then row.partialSigMaker else row.partialSigTaker
  }

  predicate HappyTrue(column: Option<int>) {
    column.Some? && column.value != 0
  }

  // ---- updates of a taken_offers row ----

  function PutSignedPsbt(row: TakenOffer, isMaker: bool, psbt: Hex): TakenOffer {
    if isMaker then row.(signedPsbtMaker := Some(psbt)) else row.(signedPsbtTaker := Some(psbt))
  }

  function PutPartialSig(row: TakenOffer, isMaker: bool, sig: Hex): TakenOffer {
    if isMaker then row.(partialSigMaker := Some(sig)) else row.(partialSigTaker := Some(sig))
  }

  function PutHappy(row: TakenOffer, isMaker: bool, happy: bool): TakenOffer {
    if isMaker then row.(makerHappy := BoolToSqlInt(happy)) else row.(takerHappy := BoolToSqlInt(happy))
  }

  function OpenDispute(row: TakenOffer): TakenOffer {
    row.(escrowOngoing := 1)
  }

  function Resolve(row: TakenOffer, winner: Robohash): TakenOffer {
    row.(escrowOngoing := 0, escrowWinner := Some(winner))
  }

  function PutPayoutPsbt(row: TakenOffer, psbt: Hex): TakenOffer {
    row.(payoutPsbt := Some(psbt))
  }

  function Toggle(row: TakenOffer): TakenOffer {
    row.(processing := if row.processing == 0 then 1 else 0)
  }

  function Confirm(row: TakenOffer, txid: Txid): TakenOffer {
    if row.terms.escrow.txid == txid then row.(confirmed := 1) else row
  }
}
