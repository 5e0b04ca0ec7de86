/** The trader's coin selection, and whether what it selects is enough for the coordinator. */
module InputSelection {
  import opened Types
  import opened EscrowAmounts
  import opened CsvInputs

  /** All coins there are, in satoshis. */
  const ALL_COINS: nat := 2_100_000_000_000_000

  /** No output is worth more than all coins there are. */
  type Sats = n: nat | n <= ALL_COINS

  /** An unspent output of the trader's wallet. */
  datatype Utxo = Utxo(value: Sats, outpoint: OutPoint)

  /** The PSBT input of an output of the wallet: it carries the output it spends. */
  function InputOf(utxo: Utxo): PsbtInput {
    PsbtInput(Some(utxo.value), utxo.outpoint)
  }

  function InputsOf(utxos: seq<Utxo>): (inputs: seq<PsbtInput>)
    ensures |inputs| == |utxos| && forall i :: 0 <= i < |utxos| ==> inputs[i] == InputOf(utxos[i])
  {
    seq(|utxos|, i requires 0 <= i < |utxos| => InputOf(utxos[i]))
  }

  /** `amount as i64` */
  function AsI64(amount: nat): int
    requires amount <= MAX_U64
  {
    if amount <= MAX_I64 then amount else amount - MAX_U64 - 1
  }

  function Worth(utxos: seq<Utxo>): nat {
    if utxos == [] then 0 else Worth(utxos[..|utxos| - 1]) + utxos[|utxos| - 1].value
  }

  /** `selected` is the shortest prefix of the wallet, of at least one output, that is worth the
      target; the whole wallet when there is none. */
  ghost predicate ShortestPrefix(wallet: seq<Utxo>, target: int, selected: seq<Utxo>) {
    && selected <= wallet
    && (forall k :: 1 <= k < |selected| ==> Worth(wallet[..k]) < target)
    && (|selected| < |wallet| ==> |selected| >= 1 && Worth(selected) >= target)
  }

  lemma WorthGrows(utxos: seq<Utxo>, n: nat)
    requires n < |utxos|
    ensures Worth(utxos[..n + 1]) == Worth(utxos[..n]) + utxos[n].value
  {
    assert utxos[..n + 1][..n] == utxos[..n];
  }

  lemma {:induction false} WorthMonotone(utxos: seq<Utxo>, n: nat, m: nat)
    requires n <= m <= |utxos|
    ensures Worth(utxos[..n]) <= Worth(utxos[..m])
  {
    if n < m {
      WorthMonotone(utxos, n, m - 1);
      WorthGrows(utxos, m - 1);
    }
  }

  lemma EncodedGrows(utxos: seq<Utxo>, n: nat, encode: PsbtInput -> seq<byte>)
    requires n < |utxos|
    ensures Encoded(InputsOf(utxos[..n + 1]), encode) ==
      Encoded(InputsOf(utxos[..n]), encode) + [EncodeHex(encode(InputOf(utxos[n])))]
  {
    assert InputsOf(utxos[..n + 1]) == InputsOf(utxos[..n]) + [InputOf(utxos[n])];
    EncodedAppend(InputsOf(utxos[..n]), InputOf(utxos[n]), encode);
  }

  /** Selects inputs of the wallet and prints them as comma joined hex. */
  method GetEscrowPsbtInputs(wallet: seq<Utxo>, amountSat: nat, encode: PsbtInput -> seq<byte>)
    returns (csv: string)
    requires amountSat <= MAX_U64
    ensures forall selected :: ShortestPrefix(wallet, AsI64(amountSat), selected) ==> csv == Print(InputsOf(selected), encode)
    ensures exists selected :: ShortestPrefix(wallet, AsI64(amountSat), selected)
  {
    var amount := AsI64(amountSat);
    var inputs := [];
    var n := 0;
    while n < |wallet|
      invariant n <= |wallet| && inputs == Encoded(InputsOf(wallet[..n]), encode)
      invariant amount == AsI64(amountSat) - Worth(wallet[..n])
      invariant forall k :: 1 <= k <= n ==> Worth(wallet[..k]) < AsI64(amountSat)
    {
      WorthGrows(wallet, n);
      EncodedGrows(wallet, n, encode);
      inputs := inputs + [EncodeHex(encode(InputOf(wallet[n])))];
      amount := amount - wallet[n].value;
      n := n + 1;
      if amount <= 0 {
        break;
      }
    }
    csv := Join(inputs);
    var selected := wallet[..n];
    assert ShortestPrefix(wallet, AsI64(amountSat), selected);
    forall other | ShortestPrefix(wallet, AsI64(amountSat), other) ensures other == selected {
      SelectionIsUnique(wallet, AsI64(amountSat), selected, other);
    }
  }

  /** The specification leaves no choice. */
  lemma SelectionIsUnique(wallet: seq<Utxo>, target: int, a: seq<Utxo>, b: seq<Utxo>)
    requires ShortestPrefix(wallet, target, a) && ShortestPrefix(wallet, target, b)
    ensures a == b
  {
    assert a == wallet[..|a|] && b == wallet[..|b|];
    assert |a| < |wallet| ==> |a| >= 1 && Worth(wallet[..|a|]) >= target;
    assert |b| < |wallet| ==> |b| >= 1 && Worth(wallet[..|b|]) >= target;
    assert |a| == |b|;
  }

  /** The selection reaches its target exactly when the whole wallet does. */
  lemma SelectionReaches(wallet: seq<Utxo>, target: int, selected: seq<Utxo>)
    requires ShortestPrefix(wallet, target, selected)
    ensures Worth(selected) >= target <==> Worth(wallet) >= target
  {
    assert wallet[..|wallet|] == wallet && wallet[..|selected|] == selected;
    WorthMonotone(wallet, |selected|, |wallet|);
  }

  // ---- is it enough for the escrow? ----

  /** What a trader's client selects inputs for. */
  function Target(advertised: nat, buys: bool, tradeValue: nat): nat {
    if buys then advertised else advertised + tradeValue
  }

  /** Every wallet that reaches the target brings what is due. */
  ghost predicate AlwaysEnough(target: nat, due: nat) {
    forall wallet: seq<Utxo>, selected: seq<Utxo> ::
      ShortestPrefix(wallet, target, selected) && Worth(wallet) >= target ==> Worth(selected) >= due
  }

  /** A target is always enough exactly when it is at least what is due: a wallet may hold one
      output of exactly the target. */
  lemma EnoughIff(target: nat, due: nat)
    requires target <= ALL_COINS
    ensures AlwaysEnough(target, due) <==> target >= due
  {
    var wallet := [Utxo(target, OutPoint("", 0))];
    assert wallet[..0] == [];
    assert Worth(wallet) == target;
    assert ShortestPrefix(wallet, target, wallet);
    if target >= due {
      forall w: seq<Utxo>, s: seq<Utxo> | ShortestPrefix(w, target, s) && Worth(w) >= target ensures Worth(s) >= due {
        SelectionReaches(w, target, s);
      }
    }
  }

  /** A maker that trades what it ordered and whose wallet reaches the required figure never makes
      its change underflow: at least 5000 plus the difference of the two service fees is left. */
  lemma MakerChangeIsDefined(order: OfferRequest, fee1: nat, fee2: nat, wallet: seq<Utxo>, selected: seq<Utxo>)
    requires fee2 <= fee1 + REQUIRED_BUFFER
    requires var bond := BondAmount(order.bondRatio, order.amountSat);
      var target := Target(bond + fee1 + REQUIRED_TX_FEE + REQUIRED_BUFFER, order.isBuyOrder, order.amountSat);
      Worth(wallet) >= target && ShortestPrefix(wallet, target, selected)
    ensures var bond := BondAmount(order.bondRatio, order.amountSat);
      var due := Due(StakesOf(order.isBuyOrder, order.amountSat, bond).makerSat, fee2);
      Worth(selected) >= due && Worth(selected) - due >= REQUIRED_BUFFER + fee1 - fee2
  {
    var bond := BondAmount(order.bondRatio, order.amountSat);
    SelectionReaches(wallet, Target(bond + fee1 + REQUIRED_TX_FEE + REQUIRED_BUFFER, order.isBuyOrder, order.amountSat), selected);
  }

  /** So it is with the two fees as they are rounded: at least 4999 is left. */
  lemma MakerChangeSurvivesRounding(round: real -> real, order: OfferRequest, feerate: real, wallet: seq<Utxo>, selected: seq<Utxo>)
    requires Rounds(round) && Accepted(order) && 0.0 <= feerate <= 100.0
    requires var required := BondAmount(order.bondRatio, order.amountSat)
        + RoundedOrderFee(round, feerate, order.amountSat) + REQUIRED_TX_FEE + REQUIRED_BUFFER;
      var target := Target(required, order.isBuyOrder, order.amountSat);
      Worth(wallet) >= target && ShortestPrefix(wallet, target, selected)
    ensures var bond := BondAmount(order.bondRatio, order.amountSat);
      var due := Due(StakesOf(order.isBuyOrder, order.amountSat, bond).makerSat, RoundedEscrowFee(round, feerate, order.amountSat));
      Worth(selected) - due >= REQUIRED_BUFFER - 1
  {
    RoundedFeesAreClose(round, feerate, order.amountSat);
    MakerChangeIsDefined(order, RoundedOrderFee(round, feerate, order.amountSat),
                         RoundedEscrowFee(round, feerate, order.amountSat), wallet, selected);
  }

  /** The taker of a buy order is shown the bond amount as the required figure. Its change never
      underflows exactly when the trade value it enters itself exceeds the offer's amount by the
      service fee and its half of the transaction fee. */
  lemma TakerChangeIsDefinedIff(amountSat: nat, bondSat: nat, fee: nat, tradeValue: nat)
    requires bondSat + tradeValue <= ALL_COINS
    ensures AlwaysEnough(Target(bondSat, false, tradeValue), Due(StakesOf(true, amountSat, bondSat).takerSat, fee))
      <==> tradeValue >= amountSat + fee + ESCROW_TX_FEE / 2
  {
    EnoughIff(Target(bondSat, false, tradeValue), Due(StakesOf(true, amountSat, bondSat).takerSat, fee));
  }

  /** With the figure the offer was created with, entering the amount itself would be enough. */
  lemma OriginalFigureWouldCoverTaker(amountSat: nat, bondSat: nat, fee1: nat, fee2: nat)
    requires fee2 <= fee1 + REQUIRED_BUFFER && bondSat + fee1 + 10000 + amountSat <= ALL_COINS
    ensures AlwaysEnough(Target(bondSat + fee1 + REQUIRED_TX_FEE + REQUIRED_BUFFER, false, amountSat),
                         Due(StakesOf(true, amountSat, bondSat).takerSat, fee2))
    ensures !AlwaysEnough(Target(bondSat, false, amountSat), Due(StakesOf(true, amountSat, bondSat).takerSat, fee2))
  {
    EnoughIff(Target(bondSat + fee1 + REQUIRED_TX_FEE + REQUIRED_BUFFER, false, amountSat),
              Due(StakesOf(true, amountSat, bondSat).takerSat, fee2));
    EnoughIff(Target(bondSat, false, amountSat), Due(StakesOf(true, amountSat, bondSat).takerSat, fee2));
  }

  /** What the coordinator sums up is what the trader selected. */
  lemma {:induction false} SumOfSelected(utxos: seq<Utxo>)
    ensures Sum(Witnessed(WitnessValues(InputsOf(utxos)))) == Worth(utxos)
  {
    if utxos != [] {
      var rest, last := utxos[..|utxos| - 1], utxos[|utxos| - 1];
      SumOfSelected(rest);
      var values := WitnessValues(InputsOf(utxos));
      assert values[..|values| - 1] == WitnessValues(InputsOf(rest));
      SumAppend(Witnessed(WitnessValues(InputsOf(rest))), last.value);
    }
  }

  /** From the maker's wallet to the coordinator's escrow: the printed selection parses back to the
      selected inputs, and their sum covers what is due from the maker. */
  lemma MakerInputsArriveAndSuffice(order: OfferRequest, fee1: nat, fee2: nat, wallet: seq<Utxo>, selected: seq<Utxo>,
                                    encode: PsbtInput -> seq<byte>, decode: seq<byte> -> Option<PsbtInput>)
    requires forall x :: decode(encode(x)) == Some(x)
    requires fee2 <= fee1 + REQUIRED_BUFFER && wallet != []
    requires var target := Target(BondAmount(order.bondRatio, order.amountSat) + fee1 + REQUIRED_TX_FEE + REQUIRED_BUFFER,
                                  order.isBuyOrder, order.amountSat);
      Worth(wallet) >= target && ShortestPrefix(wallet, target, selected)
    ensures var due := Due(StakesOf(order.isBuyOrder, order.amountSat, BondAmount(order.bondRatio, order.amountSat)).makerSat, fee2);
      var parsed := ParseAll(Split(Print(InputsOf(selected), encode)), decode);
      && parsed == Ok(InputsOf(selected))
      && Sum(Witnessed(WitnessValues(parsed.value))) >= due
  {
    MakerChangeIsDefined(order, fee1, fee2, wallet, selected);
    assert selected != [];
    RoundTrip(InputsOf(selected), encode, decode);
    SumOfSelected(selected);
  }
}
