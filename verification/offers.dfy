/** The handlers that create, list and take an offer, run with nothing in between. */
module Offers {
  import opened Types
  import opened Statements
  import opened Database
  import opened EscrowAmounts
  import opened CsvInputs
  import opened InputSelection
  import Bonds

  /** Panicked stands for an unsigned operation that overflows or underflows. */
  datatype BondError = BondNotFound | InvalidBond | CoordinatorError | Panicked

  type Codec = seq<byte> -> Option<PsbtInput>

  /** Answers what the new request requires of its maker, and remembers it; without an address from
      the wallet there is neither answer nor request. */
  method ProcessOrder(db: CoordinatorDb, order: OfferRequest, feerate: real, bondAddress: Option<Address>)
    returns (r: Result<BondRequirementResponse, BondError>)
    modifies db`makerRequests
    ensures r == match bondAddress
                 case Some(address) => Ok(Requirements(order, feerate, address))
                 case None => Err(BondError.CoordinatorError)
    ensures r.Err? ==> db.makerRequests == old(db.makerRequests)
    ensures r.Ok? ==>
      && order.robohash in db.makerRequests && RequestColumns(db.makerRequests[order.robohash], order, r.value)
      && db.makerRequests == old(db.makerRequests)[order.robohash := db.makerRequests[order.robohash]]
    ensures r.Ok? ==>
      var bond, fee := r.value.lockingAmountSat, r.value.requiredInputSat - r.value.lockingAmountSat - 10000;
      && r.value.bondAddress == bondAddress.value
      && 100 * bond <= order.bondRatio * order.amountSat < 100 * bond + 100
      && (0.0 <= feerate <= 100.0 && Accepted(order) ==>
            fee as real <= feerate * order.amountSat as real / 100.0 < (fee + 1) as real)
  {
    if 0.0 <= feerate <= 100.0 && Accepted(order) {
      FeeIsFloor(feerate, order.amountSat);
    }
    var bondAmount := order.bondRatio * order.amountSat / 100;
    var fee := OrderFee(feerate, order.amountSat);
    var absoluteTxFee := REQUIRED_TX_FEE;
    if bondAddress.None? {
      return Err(BondError.CoordinatorError);
    }
    var requirements := BondRequirementResponse(
      bondAddress.value, bondAmount, bondAmount + fee + absoluteTxFee + REQUIRED_BUFFER);
    db.InsertNewMakerRequest(order, requirements);
    return Ok(requirements);
  }

  /** A bond passes admission against these requirements. */
  predicate Admissible(chain: Bonds.Chain, utxoSet: set<OutPoint>, txHex: Hex, requirements: BondRequirements) {
    var bond := Bonds.MonitoringBond(txHex, "0", requirements, Bonds.Memory);
    Bonds.Checkable(chain, bond) && !Bonds.Fails(chain, utxoSet, bond)
  }

  function MakerDemands(request: MakerRequest): BondRequirements {
    BondRequirements(request.bondAddress, request.bondAmountSat, request.amountSat)
  }

  function TakerDemands(offer: ActiveOffer): BondRequirements {
    BondRequirements(offer.takerBondAddress, offer.bondAmountSat, offer.amountSat)
  }

  /** Lists the offer exactly when the maker has a pending request, the bond is admissible against it
      and the wallet has an address for the taker's bond; otherwise no table changes. */
  method HandleMakerBond(db: CoordinatorDb, data: BondSubmission, chain: Bonds.Chain, utxoSet: set<OutPoint>,
                         offerId: OfferId, takerBondAddress: Option<Address>)
    returns (r: Result<nat, BondError>)
    modifies db`makerRequests, db`activeOffers
    ensures r.Err? ==> db.makerRequests == old(db.makerRequests) && db.activeOffers == old(db.activeOffers)
    ensures r == Err(BondNotFound) <==> data.robohash !in old(db.makerRequests)
    ensures Bonds.AnswersEach(chain) && data.robohash in old(db.makerRequests) ==>
      var request := old(db.makerRequests)[data.robohash];
      r == if !Admissible(chain, utxoSet, data.signedBondHex, MakerDemands(request)) then Err(InvalidBond)
           else if takerBondAddress.None? then Err(BondError.CoordinatorError)
           else Ok(request.offerDurationTs)
    ensures r.Ok? ==>
      && data.robohash in old(db.makerRequests) && takerBondAddress.Some?
      && db.makerRequests == old(db.makerRequests) - {data.robohash}
      && db.activeOffers ==
         old(db.activeOffers)[offerId := ListedRow(old(db.makerRequests)[data.robohash], data, takerBondAddress.value)]
      && OrderColumns(db.activeOffers[offerId], old(db.makerRequests)[data.robohash])
      && SubmissionColumns(db.activeOffers[offerId], data, takerBondAddress.value)
  {
    var requirements := db.FetchBondRequirements(data.robohash);
    if requirements.None? {
      return Err(BondNotFound);
    }
    assert requirements.value == MakerDemands(db.makerRequests[data.robohash]);
    var admitted := Bonds.ValidateBondTxHex(chain, utxoSet, data.signedBondHex, requirements.value);
    if !admitted {
      return Err(InvalidBond);
    }
    if takerBondAddress.None? {
      return Err(BondError.CoordinatorError);
    }
    var duration := db.MoveOfferToActive(data, offerId, takerBondAddress.value);
    return Ok(duration.value);
  }

  /** The inputs of the escrow transaction of an offer, and what they are worth. */
  function Inputs(csv: string, decode: Codec): Result<seq<PsbtInput>, CsvError> {
    ParseAll(Split(csv), decode)
  }

  function InputWorth(inputs: seq<PsbtInput>): nat {
    Sum(Witnessed(WitnessValues(inputs)))
  }

  /** Both traders' inputs parse, and each side brings what is due from it. */
  predicate Funded(offer: ActiveOffer, takerCsv: string, decode: Codec, feerate: real) {
    var stakes := StakesOf(ReadInt(offer.isBuyOrder) == 1, offer.amountSat, offer.bondAmountSat);
    var fee := EscrowFee(feerate, offer.amountSat);
    var maker, taker := Inputs(offer.inputsHexCsv, decode), Inputs(takerCsv, decode);
    && maker.Ok? && taker.Ok?
    && SideFunds(InputWorth(maker.value), Due(stakes.makerSat, fee))
    && SideFunds(InputWorth(taker.value), Due(stakes.takerSat, fee))
  }

  /** What parsing keys and addresses and running the wallet's transaction builder come to: whether
      both traders' keys and change addresses parse and the descriptor can be made of them, whether
      the builder takes the inputs and finishes, and what does not depend on the amounts. */
  datatype EscrowWallet = EscrowWallet(parses: bool, builds: bool, template: EscrowPsbt)

  /** Creates the escrow PSBT of a listed offer: exactly when the traders fund it and the wallet can
      build it. A side whose sum overflows, or that brings something but too little, makes the handler
      panic. */
  method CreateEscrowPsbt(offer: ActiveOffer, takerCsv: string, decode: Codec, feerate: real, wallet: EscrowWallet)
    returns (r: Result<(EscrowPsbt, EscrowOutputs), BondError>)
    ensures r.Ok? <==> Funded(offer, takerCsv, decode, feerate) && wallet.parses && wallet.builds
    ensures r == Err(Panicked) <==>
      var stakes := StakesOf(ReadInt(offer.isBuyOrder) == 1, offer.amountSat, offer.bondAmountSat);
      var fee := EscrowFee(feerate, offer.amountSat);
      var maker, taker := Inputs(offer.inputsHexCsv, decode), Inputs(takerCsv, decode);
      && maker.Ok? && taker.Ok? && wallet.parses
      && (SideFails(InputWorth(maker.value), Due(stakes.makerSat, fee))
          || (InputWorth(maker.value) > 0 && SideFails(InputWorth(taker.value), Due(stakes.takerSat, fee))))
    ensures r.Err? ==> r.error.Panicked? || r.error.CoordinatorError?
    ensures r.Ok? ==>
      var (escrow, outputs) := r.value;
      && escrow == QuoteFor(offer, feerate, wallet.template)
      && escrow.amountMakerSat == offer.bondAmountSat + (if offer.isBuyOrder == Some(1) then 0 else offer.amountSat)
      && escrow.amountTakerSat == offer.bondAmountSat + (if offer.isBuyOrder == Some(1) then offer.amountSat else 0)
      && InputWorth(Inputs(offer.inputsHexCsv, decode).value) + InputWorth(Inputs(takerCsv, decode).value)
         == outputs.escrowSat + outputs.feeSat + outputs.changeMakerSat + outputs.changeTakerSat + 10000
      && outputs.escrowSat == escrow.amountMakerSat + escrow.amountTakerSat
      && outputs.feeSat == 2 * escrow.feePerParticipantSat
  {
    var makerInputs := CsvHexToBdkInput(offer.inputsHexCsv, decode);
    if makerInputs.Err? {
      return Err(BondError.CoordinatorError);
    }
    var takerInputs := CsvHexToBdkInput(takerCsv, decode);
    if takerInputs.Err? || !wallet.parses {
      return Err(BondError.CoordinatorError);
    }
    var isBuyOrder := 1 == ReadInt(offer.isBuyOrder);
    var outputs := EscrowTxOutputs(isBuyOrder, offer.amountSat, offer.bondAmountSat, feerate,
                                   WitnessValues(makerInputs.value), WitnessValues(takerInputs.value));
    if outputs.Err? {
      return Err(if outputs.error.EmptyInputSum? then BondError.CoordinatorError else Panicked);
    }
    if !wallet.builds {
      return Err(BondError.CoordinatorError);
    }
    var stakes := StakesOf(isBuyOrder, offer.amountSat, offer.bondAmountSat);
    var escrow := wallet.template.(amountMakerSat := stakes.makerSat, amountTakerSat := stakes.takerSat,
                                   feePerParticipantSat := EscrowFee(feerate, offer.amountSat));
    return Ok((escrow, outputs.value));
  }

  /** Takes the offer exactly when it is listed, the taker's bond is admissible, both traders fund the
      escrow and the wallet can build it; otherwise no table changes. The taken row stakes what the
      escrow locks, and the escrow transaction spends exactly the inputs of both traders. */
  method HandleTakerBond(db: CoordinatorDb, offerId: OfferId, taker: BondSubmission, bondAddress: Address,
                         chain: Bonds.Chain, utxoSet: set<OutPoint>, decode: Codec, feerate: real, wallet: EscrowWallet)
    returns (r: Result<(EscrowPsbt, EscrowOutputs), BondError>)
    modifies db`activeOffers, db`takenOffers
    ensures r.Err? ==> db.activeOffers == old(db.activeOffers) && db.takenOffers == old(db.takenOffers)
    ensures Bonds.AnswersEach(chain) ==>
      (r.Ok? <==>
         && offerId in old(db.activeOffers)
         && Admissible(chain, utxoSet, taker.signedBondHex, TakerDemands(old(db.activeOffers)[offerId]))
         && Funded(old(db.activeOffers)[offerId], taker.inputsHexCsv, decode, feerate)
         && wallet.parses && wallet.builds)
    ensures r.Ok? ==>
      && offerId in old(db.activeOffers)
      && Funded(old(db.activeOffers)[offerId], taker.inputsHexCsv, decode, feerate)
    ensures r.Ok? ==>
      var (escrow, outputs) := r.value;
      var offer := old(db.activeOffers)[offerId];
      && escrow == QuoteFor(offer, feerate, wallet.template)
      && db.activeOffers == old(db.activeOffers) - {offerId}
      && db.takenOffers == old(db.takenOffers)[offerId := FreshRow(TermsOf(offer, taker, bondAddress, escrow))]
      && MakerColumns(db.takenOffers[offerId].terms, offer) && TakerColumns(db.takenOffers[offerId].terms, taker, bondAddress)
      && db.takenOffers[offerId].terms.escrow == escrow && Untouched(db.takenOffers[offerId])
      && InputWorth(Inputs(offer.inputsHexCsv, decode).value) + InputWorth(Inputs(taker.inputsHexCsv, decode).value)
         == outputs.escrowSat + outputs.feeSat + outputs.changeMakerSat + outputs.changeTakerSat + 10000
      && outputs.escrowSat == escrow.amountMakerSat + escrow.amountTakerSat
  {
    var requirements := db.FetchTakerBondRequirements(offerId);
    if requirements.None? {
      return Err(BondNotFound);
    }
    assert requirements.value == TakerDemands(db.activeOffers[offerId]);
    var admitted := Bonds.ValidateBondTxHex(chain, utxoSet, taker.signedBondHex, requirements.value);
    if !admitted {
      return Err(InvalidBond);
    }
    var created := CreateEscrowPsbt(db.activeOffers[offerId], taker.inputsHexCsv, decode, feerate, wallet);
    if created.Err? {
      return Err(created.error);
    }
    var moved := db.AddTakerInfoAndMoveTable(offerId, taker, bondAddress, created.value.0);
    return Ok(created.value);
  }

  /** The monitor checks a listed bond against what it was admitted with. */
  lemma MonitoringMatchesAdmission(chain: Bonds.Chain, utxoSet: set<OutPoint>, request: MakerRequest, data: BondSubmission,
                                   takerBondAddress: Address, offerId: OfferId)
    ensures var bond := Bonds.BondOf(offerId, ListedRow(request, data, takerBondAddress));
      && bond.txHex == data.signedBondHex
      && bond.requirements == BondRequirements(request.bondAddress, request.bondAmountSat, request.amountSat)
      && (Admissible(chain, utxoSet, data.signedBondHex, MakerDemands(request))
          <==> Bonds.Checkable(chain, bond) && !Bonds.Fails(chain, utxoSet, bond))
  {
    Bonds.SameRule(chain, utxoSet, Bonds.MonitoringBond(data.signedBondHex, "0", MakerDemands(request), Bonds.Memory),
                   Bonds.BondOf(offerId, ListedRow(request, data, takerBondAddress)));
  }

  // ---- from the traders' wallets to the funded escrow ----

  /** The maker's client selects inputs for the figure it was required, and prints them. */
  ghost predicate MakerSelects(order: OfferRequest, required: nat, csv: string, encode: PsbtInput -> seq<byte>) {
    exists wallet, selected ::
      SelectedFor(wallet, Target(required, order.isBuyOrder, order.amountSat), selected) && csv == Print(InputsOf(selected), encode)
  }

  /** A wallet that reaches the target, and holds no more than all coins there are. */
  ghost predicate SelectedFor(wallet: seq<Utxo>, target: nat, selected: seq<Utxo>) {
    target <= Worth(wallet) <= ALL_COINS && ShortestPrefix(wallet, AsI64(target), selected)
  }

  /** Every taker whose wallet reaches its own target brings enough for the escrow. */
  ghost predicate EveryTakerFunds(offer: ActiveOffer, target: nat, feerate: real, encode: PsbtInput -> seq<byte>, decode: Codec) {
    forall wallet, selected :: SelectedFor(wallet, target, selected) ==>
      Funded(offer, Print(InputsOf(selected), encode), decode, feerate)
  }

  lemma SelectionArrives(wallet: seq<Utxo>, target: nat, selected: seq<Utxo>, encode: PsbtInput -> seq<byte>, decode: Codec)
    requires forall x :: decode(encode(x)) == Some(x)
    requires target > 0 && SelectedFor(wallet, target, selected)
    ensures Inputs(Print(InputsOf(selected), encode), decode) == Ok(InputsOf(selected))
    ensures target <= InputWorth(InputsOf(selected)) == Worth(selected) <= ALL_COINS
  {
    SelectionReaches(wallet, target, selected);
    assert wallet[..|wallet|] == wallet && wallet[..|selected|] == selected;
    WorthMonotone(wallet, |selected|, |wallet|);
    RoundTrip(InputsOf(selected), encode, decode);
    SumOfSelected(selected);
  }

  /** The maker of an accepted order that selected for what process_order answered has funded its
      side of the escrow, fees included. */
  lemma MakerFunds(order: OfferRequest, feerate: real, address: Address, csv: string,
                   encode: PsbtInput -> seq<byte>, decode: Codec)
    requires forall x :: decode(encode(x)) == Some(x)
    requires Accepted(order) && MakerSelects(order, Requirements(order, feerate, address).requiredInputSat, csv, encode)
    ensures var stakes := StakesOf(order.isBuyOrder, order.amountSat, BondAmount(order.bondRatio, order.amountSat));
      Inputs(csv, decode).Ok? && SideFunds(InputWorth(Inputs(csv, decode).value), Due(stakes.makerSat, EscrowFee(feerate, order.amountSat)))
  {
    var target := Target(Requirements(order, feerate, address).requiredInputSat, order.isBuyOrder, order.amountSat);
    var wallet, selected :| SelectedFor(wallet, target, selected) && csv == Print(InputsOf(selected), encode);
    SelectionArrives(wallet, target, selected, encode, decode);
    FeeFormulasAgree(feerate, order.amountSat);
  }

  /** From two wallets to the escrow of a listed buy order: every taker that selects for the figure
      shown in the orderbook and for the trade value it entered brings enough exactly when that value
      is at least the offer's amount, the service fee and half the transaction fee. */
  lemma EscrowFundedIff(order: OfferRequest, feerate: real, address: Address, data: BondSubmission, takerAddress: Address,
                        tradeValue: nat, encode: PsbtInput -> seq<byte>, decode: Codec)
    requires forall x :: decode(encode(x)) == Some(x)
    requires Accepted(order) && order.isBuyOrder && 0.0 <= feerate <= 100.0
    requires MakerSelects(order, Requirements(order, feerate, address).requiredInputSat, data.inputsHexCsv, encode)
    ensures var offer := ListedRow(RequestRow(order, Requirements(order, feerate, address)), data, takerAddress);
      EveryTakerFunds(offer, Target(offer.requiredInputSat, false, tradeValue), feerate, encode, decode)
      <==> tradeValue >= order.amountSat + EscrowFee(feerate, order.amountSat) + 5000
  {
    var offer := ListedRow(RequestRow(order, Requirements(order, feerate, address)), data, takerAddress);
    var bond := BondAmount(order.bondRatio, order.amountSat);
    var fee := EscrowFee(feerate, order.amountSat);
    var target := Target(offer.requiredInputSat, false, tradeValue);
    var due := Due(StakesOf(true, order.amountSat, bond).takerSat, fee);
    BondBounds(order);
    MakerFunds(order, feerate, address, data.inputsHexCsv, encode, decode);
    assert target == bond + tradeValue && due == order.amountSat + bond + fee + ESCROW_TX_FEE / 2;
    if target >= due {
      forall wallet, selected | SelectedFor(wallet, target, selected)
        ensures Funded(offer, Print(InputsOf(selected), encode), decode, feerate)
      {
        SelectionArrives(wallet, target, selected, encode, decode);
      }
    } else {
      FeeBounds(feerate, order.amountSat);
      FeeFormulasAgree(feerate, order.amountSat);
      ExactWalletFallsShort(offer, target, due, feerate, encode, decode);
    }
  }

  /** A wallet of one output worth exactly the target does not bring more than the target. */
  lemma ExactWalletFallsShort(offer: ActiveOffer, target: nat, due: nat, feerate: real, encode: PsbtInput -> seq<byte>, decode: Codec)
    requires forall x :: decode(encode(x)) == Some(x)
    requires 0 < target < due && target <= ALL_COINS
    requires due == Due(StakesOf(ReadInt(offer.isBuyOrder) == 1, offer.amountSat, offer.bondAmountSat).takerSat,
                        EscrowFee(feerate, offer.amountSat))
    ensures !EveryTakerFunds(offer, target, feerate, encode, decode)
  {
    var wallet := [Utxo(target, OutPoint("", 0))];
    assert wallet[..0] == [];
    assert Worth(wallet) == target;
    assert SelectedFor(wallet, target, wallet);
    SelectionArrives(wallet, target, wallet, encode, decode);
    assert !Funded(offer, Print(InputsOf(wallet), encode), decode, feerate);
  }
}
