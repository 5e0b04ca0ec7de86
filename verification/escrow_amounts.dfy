/** What is asked for, locked, charged and paid out: the sums of the escrow and payout
    transactions, computed in five places and never compared by the program. */
module EscrowAmounts {
  import opened Types
  import opened Statements

  const MAX_U64 := 0xFFFF_FFFF_FFFF_FFFF
  const MAX_I64 := 0x7FFF_FFFF_FFFF_FFFF
  const ESCROW_TX_FEE := 10000
  const REQUIRED_TX_FEE := 5000
  const REQUIRED_BUFFER := 5000

  datatype AmountError = EmptyInputSum | Underflow | Overflow

  /** `x as u64`: truncated, and saturating at both ends. */
  function ToU64(x: real): nat {
    if x < 0.0 then 0 else if x.Floor > MAX_U64 then MAX_U64 else x.Floor
  }

  /** The bond is the ratio of the amount in percent, rounded down. */
  function BondAmount(bondRatio: nat, amountSat: nat): (bond: nat)
    ensures 100 * bond <= bondRatio * amountSat < 100 * bond + 100
  {
    bondRatio * amountSat / 100
  }

  /** The service fee as the offer handler computes it. */
  function OrderFee(feerate: real, amountSat: nat): nat {
    ToU64(feerate * amountSat as real / 100.0)
  }

  /** The service fee as the escrow computes it. */
  function EscrowFee(feerate: real, amountSat: nat): nat {
    ToU64(amountSat as real * (feerate / 100.0))
  }

  /** Over the reals the two formulas are one. */
  lemma FeeFormulasAgree(feerate: real, amountSat: nat)
    ensures OrderFee(feerate, amountSat) == EscrowFee(feerate, amountSat)
  {
    var a := amountSat as real;
    assert feerate * a / 100.0 == a * (feerate / 100.0);
  }

  /** The service fee is the fee rate of the amount in percent, rounded down. */
  lemma FeeIsFloor(feerate: real, amountSat: nat)
    requires 0.0 <= feerate <= 100.0 && amountSat <= 20000000
    ensures OrderFee(feerate, amountSat) as real <= feerate * amountSat as real / 100.0 < (OrderFee(feerate, amountSat) + 1) as real
  {
    FeeBounds(feerate, amountSat);
    var x := feerate * amountSat as real / 100.0;
    FeeIsBounded(feerate, amountSat as real);
    assert x >= 0.0 && x <= 20000000.0;
  }

  // ---- the same with rounding after every operation ----

  function Abs(x: real): real {
    if x < 0.0 then -x else x
  }

  /** A rounding that is off by at most 1e-12 of the value, and 1e-12; binary64 is far better. */
  ghost predicate Rounds(round: real -> real) {
    forall x :: RoundsAt(round, x)
  }

  predicate RoundsAt(round: real -> real, x: real) {
    Abs(round(x) - x) <= (Abs(x) + 1.0) / 1000000000000.0
  }

  function Times(x: real, y: real): real {
    x * y
  }

  function OverHundred(x: real): real {
    x / 100.0
  }

  function RoundedOrderFee(round: real -> real, feerate: real, amountSat: nat): nat {
    ToU64(round(OverHundred(round(Times(feerate, amountSat as real)))))
  }

  function RoundedEscrowFee(round: real -> real, feerate: real, amountSat: nat): nat {
    ToU64(round(Times(amountSat as real, round(OverHundred(feerate)))))
  }

  lemma CloseFees(x: real, y: real)
    requires Abs(x - y) <= 0.5
    ensures -1 <= ToU64(x) - ToU64(y) <= 1
  {
    assert x < 0.0 || y < 0.0 || -1 <= x.Floor - y.Floor <= 1;
  }

  lemma NonNegativeProduct(x: real, y: real)
    requires 0.0 <= x && 0.0 <= y
    ensures 0.0 <= x * y
  {
  }

  lemma FeeIsBounded(feerate: real, a: real)
    requires 0.0 <= feerate <= 100.0 && 0.0 <= a <= 20000000.0
    ensures 0.0 <= Times(feerate, a) <= 2000000000.0
  {
    NonNegativeProduct(feerate, a);
    NonNegativeProduct(100.0 - feerate, a);
    assert (100.0 - feerate) * a == 100.0 * a - feerate * a;
  }

  lemma RoundedOrderFeeClose(round: real -> real, x: real)
    requires Rounds(round) && 0.0 <= x <= 2000000000.0
    ensures Abs(round(OverHundred(round(x))) - OverHundred(x)) <= 0.1
  {
    assert RoundsAt(round, x) && RoundsAt(round, OverHundred(round(x)));
  }

  /** The escrow rounds the rate first: the error of the rate `w` is scaled by the amount. */
  lemma ScaledError(a: real, w: real, u: real)
    requires 0.0 <= a <= 20000000.0 && Abs(w - u) <= 2.0 / 1000000000000.0
    ensures Abs(Times(a, w) - Times(a, u)) <= 0.01
  {
    var error := 2.0 / 1000000000000.0;
    var low, high := w - u + error, error - (w - u);
    NonNegativeProduct(a, low);
    NonNegativeProduct(a, high);
    assert a * low == a * w - a * u + a * error;
    assert a * high == a * error - (a * w - a * u);
  }

  lemma RoundedProductClose(round: real -> real, p: real, exact: real)
    requires Rounds(round) && 0.0 <= exact <= 20000000.0 && Abs(p - exact) <= 0.01
    ensures Abs(round(p) - exact) <= 0.1
  {
    assert RoundsAt(round, p);
  }

  lemma RoundedEscrowFeeClose(round: real -> real, feerate: real, a: real)
    requires Rounds(round) && 0.0 <= feerate <= 100.0 && 0.0 <= a <= 20000000.0
    ensures Abs(round(Times(a, round(OverHundred(feerate)))) - OverHundred(Times(feerate, a))) <= 0.1
  {
    var u := OverHundred(feerate);
    var w := round(u);
    assert RoundsAt(round, u);
    ScaledError(a, w, u);
    FeeIsBounded(feerate, a);
    RateFirst(feerate, a);
    RoundedProductClose(round, Times(a, w), OverHundred(Times(feerate, a)));
  }

  lemma RateFirst(feerate: real, a: real)
    ensures Times(a, OverHundred(feerate)) == OverHundred(Times(feerate, a))
  {
    var u := OverHundred(feerate);
    assert feerate == 100.0 * u;
    assert feerate * a == 100.0 * (a * u);
  }

  lemma FeesAreClose(order: real, escrow: real, exact: real)
    requires Abs(order - exact) <= 0.1 && Abs(escrow - exact) <= 0.1
    ensures -1 <= ToU64(order) - ToU64(escrow) <= 1
    ensures -1 <= ToU64(order) - ToU64(exact) <= 1 && -1 <= ToU64(escrow) - ToU64(exact) <= 1
  {
    CloseFees(order, escrow);
    CloseFees(order, exact);
    CloseFees(escrow, exact);
  }

  /** However the operations round, the two service fees of an accepted offer differ by at most one
      satoshi from each other, and from the exact fee. */
  lemma RoundedFeesAreClose(round: real -> real, feerate: real, amountSat: nat)
    requires Rounds(round) && 0.0 <= feerate <= 100.0 && amountSat <= 20000000
    ensures -1 <= RoundedOrderFee(round, feerate, amountSat) - RoundedEscrowFee(round, feerate, amountSat) <= 1
    ensures -1 <= RoundedOrderFee(round, feerate, amountSat) - OrderFee(feerate, amountSat) <= 1
    ensures -1 <= RoundedEscrowFee(round, feerate, amountSat) - OrderFee(feerate, amountSat) <= 1
  {
    var a := amountSat as real;
    FeeIsBounded(feerate, a);
    RoundedOrderFeeClose(round, Times(feerate, a));
    RoundedEscrowFeeClose(round, feerate, a);
    FeesAreClose(round(OverHundred(round(Times(feerate, a)))), round(Times(a, round(OverHundred(feerate)))),
                 OverHundred(Times(feerate, a)));
  }

  /** What a new offer requires of its maker. */
  function Requirements(order: OfferRequest, feerate: real, bondAddress: Address): BondRequirementResponse {
    var bond := BondAmount(order.bondRatio, order.amountSat);
    BondRequirementResponse(bondAddress, bond, bond + OrderFee(feerate, order.amountSat) + REQUIRED_TX_FEE + REQUIRED_BUFFER)
  }

  // ---- the escrow transaction ----

  datatype Stakes = Stakes(makerSat: nat, takerSat: nat)

  /** Who locks what: the seller locks the traded amount, both lock the bond. */
  function StakesOf(isBuyOrder: bool, amountSat: nat, bondSat: nat): Stakes {
    if !isBuyOrder then Stakes(amountSat + bondSat, bondSat) else Stakes(bondSat, amountSat + bondSat)
  }

  /** The escrow as created from an orderbook row. */
  function QuoteFor(offer: ActiveOffer, feerate: real, escrow: EscrowPsbt): EscrowPsbt {
    var stakes := StakesOf(ReadInt(offer.isBuyOrder) == 1, offer.amountSat, offer.bondAmountSat);
    escrow.(amountMakerSat := stakes.makerSat, amountTakerSat := stakes.takerSat,
            feePerParticipantSat := EscrowFee(feerate, offer.amountSat))
  }

  function Sum(values: seq<nat>): nat {
    if values == [] then 0 else Sum(values[..|values| - 1]) + values[|values| - 1]
  }

  /** The values of the inputs that carry a witness UTXO. */
  function Witnessed(utxos: seq<Option<nat>>): seq<nat> {
    if utxos == [] then []
    else Witnessed(utxos[..|utxos| - 1]) +
         match utxos[|utxos| - 1] { case Some(v) => [v] case None => [] }
  }

  lemma SumAppend(values: seq<nat>, v: nat)
    ensures Sum(values + [v]) == Sum(values) + v
  {
    assert (values + [v])[..|values|] == values;
  }

  lemma {:induction false} SumOfPart(utxos: seq<Option<nat>>, n: nat)
    requires n <= |utxos|
    ensures Sum(Witnessed(utxos[..n])) <= Sum(Witnessed(utxos))
    decreases |utxos|
  {
    if n < |utxos| {
      var rest := utxos[..|utxos| - 1];
      SumOfPart(rest, n);
      assert rest[..n] == utxos[..n];
      if utxos[|utxos| - 1].Some? {
        SumAppend(Witnessed(rest), utxos[|utxos| - 1].value);
      } else {
        assert Witnessed(rest) + [] == Witnessed(rest);
      }
    } else {
      assert utxos[..n] == utxos;
    }
  }

  /** Sums the inputs with a witness UTXO; a zero sum is an error, and a sum that does not fit into
      64 bits overflows. */
  method InputSum(utxos: seq<Option<nat>>) returns (r: Result<nat, AmountError>)
    ensures r == var sum := Sum(Witnessed(utxos));
                 if sum > MAX_U64 then Err(Overflow) else if sum == 0 then Err(EmptyInputSum) else Ok(sum)
  {
    var inputSum := 0;
    for n := 0 to |utxos|
      invariant inputSum == Sum(Witnessed(utxos[..n])) <= MAX_U64
    {
      assert utxos[..n + 1][..n] == utxos[..n];
      SumOfPart(utxos, n + 1);
      if utxos[n].Some? {
        SumAppend(Witnessed(utxos[..n]), utxos[n].value);
        if inputSum + utxos[n].value > MAX_U64 {
          return Err(Overflow);
        }
        inputSum := inputSum + utxos[n].value;
      } else {
        assert Witnessed(utxos[..n]) + [] == Witnessed(utxos[..n]);
      }
    }
    assert utxos[..|utxos|] == utxos;
    if inputSum == 0 {
      return Err(EmptyInputSum);
    }
    return Ok(inputSum);
  }

  datatype EscrowOutputs = EscrowOutputs(escrowSat: nat, feeSat: nat, changeMakerSat: nat, changeTakerSat: nat)

  /** What a trader must bring into the escrow transaction. */
  function Due(stake: nat, fee: nat): nat {
    stake + fee + ESCROW_TX_FEE / 2
  }

  /** One side of the escrow makes the arithmetic fail: its sum overflows, or is positive and less
      than what is due. */
  predicate SideFails(worth: nat, due: nat) {
    worth > MAX_U64 || 0 < worth < due
  }

  /** One side of the escrow brings what is due. */
  predicate SideFunds(worth: nat, due: nat) {
    0 < worth <= MAX_U64 && due <= worth
  }

  /** The four outputs of the escrow transaction. The two sums must not overflow, and the two unsigned
      subtractions not underflow. */
  method EscrowTxOutputs(isBuyOrder: bool, amountSat: nat, bondSat: nat, feerate: real,
                         makerUtxos: seq<Option<nat>>, takerUtxos: seq<Option<nat>>)
    returns (r: Result<EscrowOutputs, AmountError>)
    ensures var stakes, fee := StakesOf(isBuyOrder, amountSat, bondSat), EscrowFee(feerate, amountSat);
      var maker, taker := Sum(Witnessed(makerUtxos)), Sum(Witnessed(takerUtxos));
      && (r.Ok? <==> SideFunds(maker, Due(stakes.makerSat, fee)) && SideFunds(taker, Due(stakes.takerSat, fee)))
      && (r == Err(Underflow) || r == Err(Overflow) <==>
            SideFails(maker, Due(stakes.makerSat, fee)) || (maker > 0 && SideFails(taker, Due(stakes.takerSat, fee))))
      && (r.Ok? ==>
            && maker + taker == r.value.escrowSat + r.value.feeSat + r.value.changeMakerSat + r.value.changeTakerSat + 10000
            && r.value.escrowSat == amountSat + 2 * bondSat && r.value.feeSat == 2 * fee
            && r.value.changeMakerSat == maker - (if isBuyOrder then bondSat else amountSat + bondSat) - fee - 5000
            && r.value.changeTakerSat == taker - (if isBuyOrder then amountSat + bondSat else bondSat) - fee - 5000)
  {
    var stakes := StakesOf(isBuyOrder, amountSat, bondSat);
    var fee := EscrowFee(feerate, amountSat);
    var makerSum := InputSum(makerUtxos);
    if makerSum.Err? {
      return Err(makerSum.error);
    }
    var makerDue := stakes.makerSat + fee + ESCROW_TX_FEE / 2;
    if makerSum.value < makerDue {
      return Err(Underflow);
    }
    var changeMaker := makerSum.value - makerDue;
    var takerSum := InputSum(takerUtxos);
    if takerSum.Err? {
      return Err(takerSum.error);
    }
    var takerDue := stakes.takerSat + fee + ESCROW_TX_FEE / 2;
    if takerSum.value < takerDue {
      return Err(Underflow);
    }
    var changeTaker := takerSum.value - takerDue;
    return Ok(EscrowOutputs(stakes.makerSat + stakes.takerSat, fee * 2, changeMaker, changeTaker));
  }

  // ---- the payout transaction ----

  /** Who is paid what before the transaction fee. */
  function PayoutAmounts(isBuyOrder: Option<int>, stakes: Stakes): Stakes {
    if ReadInt(isBuyOrder) == 1 then Stakes(stakes.takerSat, stakes.makerSat) else stakes
  }

  /** The two payout outputs: each trader bears half the fee, rounded down. */
  function PayoutOutputs(amounts: Stakes, txFee: nat): Option<Stakes> {
    var perUser := txFee / 2;
    if amounts.makerSat < perUser || amounts.takerSat < perUser then None
    else Some(Stakes(amounts.makerSat - perUser, amounts.takerSat - perUser))
  }

  /** The payout subtractions are defined exactly when the ratio of the amount covers half the fee. */
  lemma PayoutDefined(isBuyOrder: Option<int>, listedAsBuy: bool, bondRatio: nat, amountSat: nat, txFee: nat)
    ensures PayoutOutputs(PayoutAmounts(isBuyOrder, StakesOf(listedAsBuy, amountSat, BondAmount(bondRatio, amountSat))), txFee).Some?
      <==> bondRatio * amountSat >= 100 * (txFee / 2)
  {
    var bond := BondAmount(bondRatio, amountSat);
    assert bond >= txFee / 2 <==> 100 * bond >= 100 * (txFee / 2);
  }

  /** At the fallback feerate a smallest offer with the smallest bond cannot be paid out. */
  lemma SmallestOfferCannotBePaidOut()
    ensures PayoutOutputs(PayoutAmounts(Some(1), StakesOf(true, 10000, BondAmount(2, 10000))), 40 * 140).None?
  {
  }

  /** The payout spends the escrow output up to the parity of the fee: with an odd fee the outputs
      and the fee ask for one satoshi more than there is. */
  lemma PayoutConserves(isBuyOrder: Option<int>, listedAsBuy: bool, bondSat: nat, amountSat: nat, txFee: nat)
    requires PayoutOutputs(PayoutAmounts(isBuyOrder, StakesOf(listedAsBuy, amountSat, bondSat)), txFee).Some?
    ensures var stakes := StakesOf(listedAsBuy, amountSat, bondSat);
      var out := PayoutOutputs(PayoutAmounts(isBuyOrder, stakes), txFee).value;
      && out.makerSat + out.takerSat + txFee == stakes.makerSat + stakes.takerSat + txFee % 2
      && (out.makerSat + out.takerSat + txFee == stakes.makerSat + stakes.takerSat <==> txFee % 2 == 0)
  {
  }

  /** A buy order settles: the maker buys the amount from the taker, each for half the fee. */
  lemma BuyOrderSettles(bondSat: nat, amountSat: nat, txFee: nat)
    requires bondSat >= txFee / 2
    ensures var stakes := StakesOf(true, amountSat, bondSat);
      var out := PayoutOutputs(PayoutAmounts(BoolToSqlInt(true), stakes), txFee).value;
      && out.makerSat - stakes.makerSat == amountSat - txFee / 2
      && out.takerSat - stakes.takerSat == -(amountSat as int) - txFee / 2
  {
  }

  /** Any other order returns each trader its own stake: nothing is exchanged. */
  lemma OtherOrdersReturnStakes(bondSat: nat, amountSat: nat, txFee: nat)
    requires bondSat >= txFee / 2
    ensures var stakes := StakesOf(false, amountSat, bondSat);
      var out := PayoutOutputs(PayoutAmounts(BoolToSqlInt(false), stakes), txFee).value;
      out.makerSat - stakes.makerSat == -(txFee / 2) && out.takerSat - stakes.takerSat == -(txFee / 2)
  {
  }

  /** Amounts and ratios the offer endpoint accepts. */
  predicate Accepted(order: OfferRequest) {
    10000 <= order.amountSat <= 20000000 && 2 <= order.bondRatio <= 50
  }

  lemma ProductMonotone(a: nat, b: nat, c: nat)
    requires a <= b
    ensures a * c <= b * c
  {
    assert b * c == a * c + (b - a) * c;
  }

  lemma ProductBounds(ratio: nat, amount: nat)
    requires 2 <= ratio <= 50
    ensures 2 * amount <= ratio * amount <= 50 * amount
  {
    ProductMonotone(2, ratio, amount);
    ProductMonotone(ratio, 50, amount);
  }

  lemma BondBounds(order: OfferRequest)
    requires Accepted(order)
    ensures 200 <= BondAmount(order.bondRatio, order.amountSat) <= order.amountSat / 2
  {
    ProductBounds(order.bondRatio, order.amountSat);
  }

  lemma TruncationBound(x: real, bound: nat)
    requires x <= bound as real
    ensures ToU64(x) <= bound
  {
    assert x.Floor as real <= bound as real;
  }

  lemma FeeBounds(feerate: real, amountSat: nat)
    requires 0.0 <= feerate <= 100.0
    ensures OrderFee(feerate, amountSat) <= amountSat
  {
    var a := amountSat as real;
    var x := feerate * a;
    assert x <= 100.0 * a;
    assert x / 100.0 <= a;
    TruncationBound(x / 100.0, amountSat);
  }

  /** No sum in the requirement, the escrow or the payout overflows a signed 64 bit column, for
      every accepted offer and a service fee of at most the whole amount. */
  lemma NothingOverflows(order: OfferRequest, feerate: real, address: Address)
    requires Accepted(order) && 0.0 <= feerate <= 100.0
    ensures var r, fee := Requirements(order, feerate, address), EscrowFee(feerate, order.amountSat);
      var stakes := StakesOf(order.isBuyOrder, order.amountSat, r.lockingAmountSat);
      && order.bondRatio * order.amountSat <= MAX_I64
      && r.requiredInputSat + order.amountSat <= MAX_I64
      && Due(stakes.makerSat, fee) <= MAX_I64 && Due(stakes.takerSat, fee) <= MAX_I64
      && stakes.makerSat + stakes.takerSat <= MAX_I64 && 2 * fee <= MAX_I64
  {
    BondBounds(order);
    FeeBounds(feerate, order.amountSat);
    FeeFormulasAgree(feerate, order.amountSat);
    ProductBounds(order.bondRatio, order.amountSat);
  }
}
