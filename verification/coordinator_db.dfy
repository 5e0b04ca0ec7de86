/** The three tables, with a method for every database operation. */
module Database {
  import opened Types
  import opened Statements

  /** A table with one row written, or taken out. */
  function WithRow(table: map<OfferId, TakenOffer>, offerId: OfferId, row: Option<TakenOffer>): map<OfferId, TakenOffer> {
    match row
    case Some(r) => table[offerId := r]
    case None => table - {offerId}
  }

  lemma WithRowTwice(table: map<OfferId, TakenOffer>, offerId: OfferId, first: TakenOffer, second: Option<TakenOffer>)
    ensures WithRow(table[offerId := first], offerId, second) == WithRow(table, offerId, second)
  {
  }

  /** `UPDATE … WHERE escrow_psbt_txid = txid`, once for every txid of the list. */
  function ConfirmAll(row: TakenOffer, txids: seq<Txid>): TakenOffer {
    if row.terms.escrow.txid in txids then row.(confirmed := 1) else row
  }

  /** WHERE clause of the orderbook query. */
  predicate Suits(offer: ActiveOffer, buyOffers: bool, minSat: int, maxSat: int) {
    SqlEquals(offer.isBuyOrder, if buyOffers then 1 else 0) && minSat <= offer.amountSat <= maxSat
  }

  /** What the query shows of an offer: the amount, and what a taker has to bring. */
  predicate Shows(p: PublicOffer, offers: map<OfferId, ActiveOffer>) {
    && p.offerId in offers
    && p.amountSat == offers[p.offerId].amountSat
    && p.requirements.bondAddress == offers[p.offerId].takerBondAddress
    && p.requirements.lockingAmountSat == offers[p.offerId].bondAmountSat
    && p.requirements.requiredInputSat == offers[p.offerId].requiredInputSat
  }

  function Listing(offerId: OfferId, offer: ActiveOffer): PublicOffer {
    PublicOffer(offerId, offer.amountSat,
                BondRequirementResponse(offer.takerBondAddress, offer.bondAmountSat, offer.requiredInputSat))
  }

  /** The rows of a table in the order a query happens to yield them. */
  method InSomeOrder(keys: set<OfferId>) returns (order: seq<OfferId>)
    ensures forall o :: o in order <==> o in keys
    ensures forall i, j :: 0 <= i < j < |order| ==> order[i] != order[j]
  {
    order := [];
    var rest := keys;
    while rest != {}
      invariant rest <= keys
      invariant forall o :: o in order <==> o in keys && o !in rest
      invariant forall i, j :: 0 <= i < j < |order| ==> order[i] != order[j]
      decreases rest
    {
      var o :| o in rest;
      order := order + [o];
      rest := rest - {o};
    }
  }

  class CoordinatorDb {
    var makerRequests: map<Robohash, MakerRequest>
    var activeOffers: map<OfferId, ActiveOffer>
    var takenOffers: map<OfferId, TakenOffer>

    constructor ()
      ensures makerRequests == map[] && activeOffers == map[] && takenOffers == map[]
    {
      makerRequests, activeOffers, takenOffers := map[], map[], map[];
    }

    function Row(offerId: OfferId): Option<TakenOffer>
      reads this
    {
      if offerId in takenOffers then Some(takenOffers[offerId]) else None
    }

    // ---- maker_requests and active_maker_offers ----

    /** INSERT OR REPLACE: a second request of the same maker replaces the first. */
    method InsertNewMakerRequest(order: OfferRequest, requirements: BondRequirementResponse)
      modifies this`makerRequests
      ensures makerRequests == old(makerRequests)[order.robohash := RequestRow(order, requirements)]
      ensures RequestColumns(makerRequests[order.robohash], order, requirements)
    {
      makerRequests := makerRequests[order.robohash := RequestRow(order, requirements)];
    }

    method FetchBondRequirements(robohash: Robohash) returns (r: Option<BondRequirements>)
      ensures r.Some? <==> robohash in makerRequests
      ensures r.Some? ==>
        && r.value.lockingAmountSat == makerRequests[robohash].bondAmountSat
        && r.value.minInputSumSat == makerRequests[robohash].amountSat
        && r.value.bondAddress == makerRequests[robohash].bondAddress
    {
      if robohash !in makerRequests {
        return None;
      }
      var row := makerRequests[robohash];
      return Some(BondRequirements(row.bondAddress, row.bondAmountSat, row.amountSat));
    }

    method FetchAndDeleteOfferFromBondTable(robohash: Robohash) returns (r: Option<MakerRequest>)
      modifies this`makerRequests
      ensures r == if robohash in old(makerRequests) then Some(old(makerRequests)[robohash]) else None
      ensures makerRequests == old(makerRequests) - {robohash}
    {
      if robohash !in makerRequests {
        return None;
      }
      r := Some(makerRequests[robohash]);
      makerRequests := makerRequests - {robohash};
    }

    /** The pending request leaves its table and becomes an orderbook row; without a pending request
        nothing changes. Returns the offer duration. */
    method MoveOfferToActive(data: BondSubmission, offerId: OfferId, takerBondAddress: Address)
      returns (r: Option<nat>)
      modifies this`makerRequests, this`activeOffers
      ensures r.Some? <==> data.robohash in old(makerRequests)
      ensures makerRequests == old(makerRequests) - {data.robohash}
      ensures r.None? ==> activeOffers == old(activeOffers)
      ensures r.Some? ==>
        && r.value == old(makerRequests)[data.robohash].offerDurationTs
        && activeOffers ==
           old(activeOffers)[offerId := ListedRow(old(makerRequests)[data.robohash], data, takerBondAddress)]
        && OrderColumns(activeOffers[offerId], old(makerRequests)[data.robohash])
        && SubmissionColumns(activeOffers[offerId], data, takerBondAddress)
    {
      var request := FetchAndDeleteOfferFromBondTable(data.robohash);
      if request.None? {
        return None;
      }
      activeOffers := activeOffers[offerId := ListedRow(request.value, data, takerBondAddress)];
      return Some(request.value.offerDurationTs);
    }

    /** Lists each suitable row once. A sell offer has NULL in `is_buy_order` and suits no query. */
    method FetchSuitableOffers(buyOffers: bool, minSat: int, maxSat: int) returns (r: Option<seq<PublicOffer>>)
      ensures r.Some? <==> exists o :: o in activeOffers && Suits(activeOffers[o], buyOffers, minSat, maxSat)
      ensures r.Some? ==> forall p :: p in r.value <==>
        p.offerId in activeOffers && Suits(activeOffers[p.offerId], buyOffers, minSat, maxSat)
        && p == Listing(p.offerId, activeOffers[p.offerId])
      ensures r.Some? ==> forall p :: p in r.value ==> Shows(p, activeOffers)
      ensures r.Some? ==> forall i, j :: 0 <= i < j < |r.value| ==> r.value[i].offerId != r.value[j].offerId
    {
      var order := InSomeOrder(activeOffers.Keys);
      var offers: seq<PublicOffer> := [];
      for n := 0 to |order|
        invariant forall p :: p in offers <==>
          p.offerId in order[..n] && p.offerId in activeOffers && Suits(activeOffers[p.offerId], buyOffers, minSat, maxSat)
          && p == Listing(p.offerId, activeOffers[p.offerId])
        invariant forall i, j :: 0 <= i < j < |offers| ==> offers[i].offerId != offers[j].offerId
      {
        var o := order[n];
        assert order[..n + 1] == order[..n] + [o];
        if Suits(activeOffers[o], buyOffers, minSat, maxSat) {
          assert forall i :: 0 <= i < |offers| ==> offers[i] in offers;
          offers := offers + [Listing(o, activeOffers[o])];
        }
      }
      assert order[..|order|] == order;
      if offers == [] {
        assert forall o :: o in activeOffers && Suits(activeOffers[o], buyOffers, minSat, maxSat) ==>
          Listing(o, activeOffers[o]) in offers;
        return None;
      }
      assert offers[0] in offers;
      return Some(offers);
    }

    method FetchTakerBondRequirements(offerId: OfferId) returns (r: Option<BondRequirements>)
      ensures r.Some? <==> offerId in activeOffers
      ensures r.Some? ==>
        && r.value.bondAddress == activeOffers[offerId].takerBondAddress
        && r.value.lockingAmountSat == activeOffers[offerId].bondAmountSat
        && r.value.minInputSumSat == activeOffers[offerId].amountSat
    {
      if offerId !in activeOffers {
        return None;
      }
      var row := activeOffers[offerId];
      return Some(BondRequirements(row.takerBondAddress, row.bondAmountSat, row.amountSat));
    }

    /** The offer leaves the orderbook and becomes a taken row with no slot filled. */
    method AddTakerInfoAndMoveTable(offerId: OfferId, taker: BondSubmission, takerBondAddress: Address, escrow: EscrowPsbt)
      returns (ok: bool)
      modifies this`activeOffers, this`takenOffers
      ensures ok <==> offerId in old(activeOffers)
      ensures activeOffers == old(activeOffers) - {offerId}
      ensures takenOffers ==
        if ok then old(takenOffers)[offerId := FreshRow(TermsOf(old(activeOffers)[offerId], taker, takerBondAddress, escrow))]
        else old(takenOffers)
      ensures ok ==>
        var row := takenOffers[offerId];
        && MakerColumns(row.terms, old(activeOffers)[offerId]) && TakerColumns(row.terms, taker, takerBondAddress)
        && row.terms.escrow == escrow && Untouched(row)
    {
      if offerId !in activeOffers {
        return false;
      }
      var offer := activeOffers[offerId];
      activeOffers := activeOffers - {offerId};
      takenOffers := takenOffers[offerId := FreshRow(TermsOf(offer, taker, takerBondAddress, escrow))];
      return true;
    }

    method RemoveFromOrderbook(offerId: OfferId)
      modifies this`activeOffers
      ensures activeOffers == old(activeOffers) - {offerId}
    {
      activeOffers := activeOffers - {offerId};
    }

    // ---- taken_offers: reads ----

    method IsValidRobohashInTable(offerId: OfferId, who: Robohash) returns (valid: bool)
      ensures valid <==> Row(offerId).Some? && IsMember(Row(offerId).value, who)
    {
      valid := offerId in takenOffers
        && (takenOffers[offerId].terms.robohashMaker == who || takenOffers[offerId].terms.robohashTaker == who);
    }

    method IsMakerInTakenOffers(offerId: OfferId, who: Robohash) returns (r: Result<bool, RequestError>)
      ensures r == if Row(offerId).Some? && RoleOf(Row(offerId).value, who).Some?
                   then Ok(RoleOf(Row(offerId).value, who).value) else Err(Database)
    {
      if offerId !in takenOffers {
        return Err(Database);
      }
      var isMaker := takenOffers[offerId].terms.robohashMaker == who;
      var isTaker := takenOffers[offerId].terms.robohashTaker == who;
      if !isMaker && !isTaker {
        return Err(Database);
      }
      return Ok(isMaker);
    }

    method FetchEscrowTxConfirmationStatus(offerId: OfferId) returns (r: Result<bool, RequestError>)
      ensures r == if Row(offerId).Some? then Ok(Row(offerId).value.confirmed == 1) else Err(Database)
    {
      if offerId !in takenOffers {
        return Err(Database);
      }
      return Ok(takenOffers[offerId].confirmed == 1);
    }

    method FetchBothSignedEscrowPsbts(offerId: OfferId) returns (r: Result<Option<(Hex, Hex)>, RequestError>)
      ensures r.Ok? <==> Row(offerId).Some?
      ensures r.Ok? ==> var row := Row(offerId).value;
        && (r.value.Some? <==> SignedPsbt(row, true).Some? && SignedPsbt(row, false).Some?)
        && (r.value.Some? ==> SignedPsbt(row, true) == Some(r.value.value.0) && SignedPsbt(row, false) == Some(r.value.value.1))
    {
      if offerId !in takenOffers {
        return Err(Database);
      }
      var row := takenOffers[offerId];
      match (row.signedPsbtMaker, row.signedPsbtTaker)
      case (Some(maker), Some(taker)) => return Ok(Some((maker, taker)));
      case _ => return Ok(None);
    }

    method FetchTraderHappiness(offerId: OfferId) returns (r: Result<TraderHappiness, RequestError>)
      ensures r.Ok? <==> Row(offerId).Some?
      ensures r.Ok? ==> var row := Row(offerId).value;
        && (r.value.makerHappy == Some(true) <==> HappyTrue(row.makerHappy))
        && (r.value.takerHappy == Some(true) <==> HappyTrue(row.takerHappy))
        && (r.value.makerHappy.None? <==> row.makerHappy.None?) && (r.value.takerHappy.None? <==> row.takerHappy.None?)
        && (r.value.escrowOngoing <==> row.escrowOngoing != 0)
    {
      if offerId !in takenOffers {
        return Err(Database);
      }
      var row := takenOffers[offerId];
      var maker := if row.makerHappy.Some? then Some(row.makerHappy.value != 0) else None;
      var taker := if row.takerHappy.Some? then Some(row.takerHappy.value != 0) else None;
      return Ok(TraderHappiness(maker, taker, row.escrowOngoing != 0));
    }

    method FetchEscrowResult(offerId: OfferId) returns (r: Result<Option<Robohash>, RequestError>)
      ensures r == if Row(offerId).Some? then Ok(Row(offerId).value.escrowWinner) else Err(Database)
    {
      if offerId !in takenOffers {
        return Err(Database);
      }
      return Ok(takenOffers[offerId].escrowWinner);
    }

    method FetchKeyspendPayoutPsbt(offerId: OfferId) returns (r: Result<Option<Hex>, RequestError>)
      ensures r == if Row(offerId).Some? then Ok(Row(offerId).value.payoutPsbt) else Err(Database)
    {
      if offerId !in takenOffers {
        return Err(Database);
      }
      return Ok(takenOffers[offerId].payoutPsbt);
    }

    /** The txid of every row whose confirmation flag is 0. */
    method FetchUnconfirmedEscrowTxids() returns (txids: seq<Txid>)
      ensures forall x :: x in txids <==>
        exists o :: o in takenOffers && takenOffers[o].confirmed == 0 && takenOffers[o].terms.escrow.txid == x
    {
      var order := InSomeOrder(takenOffers.Keys);
      txids := [];
      for n := 0 to |order|
        invariant forall x :: x in txids <==>
          exists i :: 0 <= i < n && takenOffers[order[i]].confirmed == 0 && takenOffers[order[i]].terms.escrow.txid == x
      {
        if takenOffers[order[n]].confirmed == 0 {
          txids := txids + [takenOffers[order[n]].terms.escrow.txid];
        }
      }
      assert forall o :: o in takenOffers ==> o in order;
      assert forall i :: 0 <= i < |order| ==> order[i] in takenOffers;
    }

    /** Exactly the disputes that are open. */
    method GetOpenEscrows() returns (cases: seq<EscrowCase>)
      ensures forall c :: c in cases <==>
        c.offerId in takenOffers && takenOffers[c.offerId].escrowOngoing == 1
        && c.maker == takenOffers[c.offerId].terms.robohashMaker && c.taker == takenOffers[c.offerId].terms.robohashTaker
    {
      var order := InSomeOrder(takenOffers.Keys);
      cases := [];
      for n := 0 to |order|
        invariant forall c :: c in cases <==>
          c.offerId in order[..n] && c.offerId in takenOffers && takenOffers[c.offerId].escrowOngoing == 1
          && c.maker == takenOffers[c.offerId].terms.robohashMaker && c.taker == takenOffers[c.offerId].terms.robohashTaker
      {
        assert order[..n + 1] == order[..n] + [order[n]];
        var row := takenOffers[order[n]];
        if row.escrowOngoing == 1 {
          cases := cases + [EscrowCase(order[n], row.terms.robohashMaker, row.terms.robohashTaker)];
        }
      }
      assert order[..|order|] == order;
    }

    // ---- taken_offers: updates ----

    /** Fills the trader's own column; Ok(false) when it is already filled. */
    method InsertSignedEscrowPsbt(offerId: OfferId, who: Robohash, psbt: Hex) returns (r: Result<bool, RequestError>)
      modifies this`takenOffers
      ensures r != Ok(true) ==> takenOffers == old(takenOffers)
      ensures
        var row := old(Row(offerId));
        if row.Some? && who == row.value.terms.robohashMaker then
          if row.value.signedPsbtMaker.Some? then r == Ok(false)
          else r == Ok(true) && takenOffers == old(takenOffers)[offerId := row.value.(signedPsbtMaker := Some(psbt))]
        else if row.Some? && who == row.value.terms.robohashTaker then
          if row.value.signedPsbtTaker.Some? then r == Ok(false)
          else r == Ok(true) && takenOffers == old(takenOffers)[offerId := row.value.(signedPsbtTaker := Some(psbt))]
        else r == Err(Database)
    {
      var isMaker := IsMakerInTakenOffers(offerId, who);
      if isMaker.Err? {
        return Err(Database);
      }
      var row := takenOffers[offerId];
      var alreadyThere := if isMaker.value then row.signedPsbtMaker.Some? else row.signedPsbtTaker.Some?;
      if alreadyThere {
        return Ok(false);
      }
      if isMaker.value {
        takenOffers := takenOffers[offerId := row.(signedPsbtMaker := Some(psbt))];
      } else {
        takenOffers := takenOffers[offerId := row.(signedPsbtTaker := Some(psbt))];
      }
      return Ok(true);
    }

    /** Fills the trader's own column; an error when it is already filled. */
    method InsertPartialSig(offerId: OfferId, who: Robohash, sig: Hex) returns (r: Result<(), RequestError>)
      modifies this`takenOffers
      ensures r.Err? ==> r == Err(Database) && takenOffers == old(takenOffers)
      ensures
        var row := old(Row(offerId));
        if row.Some? && who == row.value.terms.robohashMaker && row.value.partialSigMaker.None? then
          r == Ok(()) && takenOffers == old(takenOffers)[offerId := row.value.(partialSigMaker := Some(sig))]
        else if row.Some? && who == row.value.terms.robohashTaker && who != row.value.terms.robohashMaker
                && row.value.partialSigTaker.None? then
          r == Ok(()) && takenOffers == old(takenOffers)[offerId := row.value.(partialSigTaker := Some(sig))]
        else r == Err(Database)
    {
      var isMaker := IsMakerInTakenOffers(offerId, who);
      if isMaker.Err? {
        return Err(Database);
      }
      var row := takenOffers[offerId];
      var alreadyThere := if isMaker.value then row.partialSigMaker.Some? else row.partialSigTaker.Some?;
      if alreadyThere {
        return Err(Database);
      }
      if isMaker.value {
        takenOffers := takenOffers[offerId := row.(partialSigMaker := Some(sig))];
      } else {
        takenOffers := takenOffers[offerId := row.(partialSigTaker := Some(sig))];
      }
      return Ok(());
    }

    /** Happiness is written as 1 and unhappiness as NULL, into the trader's own column. Unhappiness
        also opens a dispute; happiness does not close one. */
    method SetTraderHappyField(offerId: OfferId, who: Robohash, isHappy: bool) returns (r: Result<(), RequestError>)
      modifies this`takenOffers
      ensures r.Err? ==> takenOffers == old(takenOffers)
      ensures
        var row, flag := old(Row(offerId)), if isHappy then Some(1) else None;
        var ongoing := if row.Some? && isHappy then row.value.escrowOngoing else 1;
        if row.Some? && who == row.value.terms.robohashMaker then
          r == Ok(()) && takenOffers == old(takenOffers)[offerId := row.value.(makerHappy := flag, escrowOngoing := ongoing)]
        else if row.Some? && who == row.value.terms.robohashTaker then
          r == Ok(()) && takenOffers == old(takenOffers)[offerId := row.value.(takerHappy := flag, escrowOngoing := ongoing)]
        else r == Err(Database)
    {
      var isMaker := IsMakerInTakenOffers(offerId, who);
      if isMaker.Err? {
        return Err(Database);
      }
      var flag := BoolToSqlInt(isHappy);
      if isMaker.value {
        takenOffers := takenOffers[offerId := takenOffers[offerId].(makerHappy := flag)];
      } else {
        takenOffers := takenOffers[offerId := takenOffers[offerId].(takerHappy := flag)];
      }
      if !isHappy {
        takenOffers := takenOffers[offerId := takenOffers[offerId].(escrowOngoing := 1)];
      }
      return Ok(());
    }

    /** UPDATE … RETURNING: the new value of the flag. */
    method ToggleProcessing(offerId: OfferId) returns (r: Result<bool, RequestError>)
      modifies this`takenOffers
      ensures old(Row(offerId)).None? ==> r == Err(Database) && takenOffers == old(takenOffers)
      ensures old(Row(offerId)).Some? ==>
        var row := old(Row(offerId)).value;
        && r == Ok(row.processing == 0)
        && takenOffers == old(takenOffers)[offerId := row.(processing := if row.processing == 0 then 1 else 0)]
    {
      if offerId !in takenOffers {
        return Err(Database);
      }
      var row := takenOffers[offerId];
      var processing := 0;
      if row.processing == 0 {
        processing := 1;
      }
      takenOffers := takenOffers[offerId := row.(processing := processing)];
      return Ok(processing == 1);
    }

    method InsertKeyspendPayoutPsbt(offerId: OfferId, psbt: Hex)
      modifies this`takenOffers
      ensures takenOffers ==
        if old(Row(offerId)).Some? then old(takenOffers)[offerId := old(Row(offerId)).value.(payoutPsbt := Some(psbt))]
        else old(takenOffers)
    {
      if offerId in takenOffers {
        takenOffers := takenOffers[offerId := takenOffers[offerId].(payoutPsbt := Some(psbt))];
      }
    }

    /** Marks every row of every listed txid and no other row. */
    method ConfirmBondTxids(txids: seq<Txid>)
      modifies this`takenOffers
      ensures takenOffers == map o | o in old(takenOffers) :: ConfirmAll(old(takenOffers)[o], txids)
    {
      ghost var before := takenOffers;
      for n := 0 to |txids|
        invariant takenOffers == map o | o in before :: ConfirmAll(before[o], txids[..n])
      {
        takenOffers := map o | o in takenOffers :: Confirm(takenOffers[o], txids[n]);
        assert txids[..n + 1] == txids[..n] + [txids[n]];
      }
      assert txids[..|txids|] == txids;
    }

    method ResolveEscrow(offerId: OfferId, winner: Robohash)
      modifies this`takenOffers
      ensures takenOffers ==
        if old(Row(offerId)).Some?
        then old(takenOffers)[offerId := old(Row(offerId)).value.(escrowOngoing := 0, escrowWinner := Some(winner))]
        else old(takenOffers)
    {
      if offerId in takenOffers {
        takenOffers := takenOffers[offerId := takenOffers[offerId].(escrowOngoing := 0, escrowWinner := Some(winner))];
      }
    }

    method DeleteCompleteOffer(offerId: OfferId)
      modifies this`takenOffers
      ensures takenOffers == old(takenOffers) - {offerId}
    {
      takenOffers := takenOffers - {offerId};
    }
  }
}
