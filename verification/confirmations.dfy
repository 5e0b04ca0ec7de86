/** The monitor that marks escrow transactions as confirmed. */
module Confirmations {
  import opened Types
  import opened Statements
  import opened Database

  /** What the node says about one txid: an unknown transaction is passed over, any other failure
      ends the pass. */
  datatype RpcAnswer = Info(confirmations: Option<nat>) | NotYetKnown | Failed

  predicate Qualifies(rpc: Txid -> RpcAnswer, txid: Txid) {
    rpc(txid).Info? && rpc(txid).confirmations.Some? && rpc(txid).confirmations.value > 3
  }

  function Qualifying(rpc: Txid -> RpcAnswer, txids: seq<Txid>): seq<Txid> {
    if txids == [] then []
    else Qualifying(rpc, txids[..|txids| - 1]) + if Qualifies(rpc, txids[|txids| - 1]) then [txids[|txids| - 1]] else []
  }

  lemma {:induction false} QualifyingMembers(rpc: Txid -> RpcAnswer, txids: seq<Txid>)
    ensures forall x :: x in Qualifying(rpc, txids) <==> x in txids && Qualifies(rpc, x)
  {
    if txids != [] {
      QualifyingMembers(rpc, txids[..|txids| - 1]);
      assert txids == txids[..|txids| - 1] + [txids[|txids| - 1]];
    }
  }

  /** Exactly the txids with more than three confirmations, in order; an error if any answer fails. */
  method GetConfirmations(txids: seq<Txid>, rpc: Txid -> RpcAnswer) returns (r: Result<seq<Txid>, ()>)
    ensures r.Ok? <==> forall x :: x in txids ==> !rpc(x).Failed?
    ensures r.Ok? ==> r.value == Qualifying(rpc, txids)
  {
    var confirmed: seq<Txid> := [];
    for n := 0 to |txids|
      invariant forall x :: x in txids[..n] ==> !rpc(x).Failed?
      invariant confirmed == Qualifying(rpc, txids[..n])
    {
      assert txids[..n + 1][..n] == txids[..n] && txids[n] in txids;
      match rpc(txids[n])
      case NotYetKnown => continue;
      case Failed => return Err(());
      case Info(confirmations) =>
        if confirmations.Some? && confirmations.value > 3 {
          confirmed := confirmed + [txids[n]];
        }
    }
    assert txids[..|txids|] == txids;
    return Ok(confirmed);
  }

  /** No unconfirmed escrow makes the pass fail. */
  ghost predicate PassSucceeds(table: map<OfferId, TakenOffer>, rpc: Txid -> RpcAnswer) {
    forall o :: o in table && table[o].confirmed == 0 ==> !rpc(table[o].terms.escrow.txid).Failed?
  }

  ghost predicate FlagsGood(table: map<OfferId, TakenOffer>) {
    forall o :: o in table ==> table[o].confirmed == 0 || table[o].confirmed == 1
  }

  /** One pass: it marks exactly the unconfirmed rows whose own txid has more than three
      confirmations, changes nothing else in any row, and changes nothing at all on an error. */
  method UpdateTransactionConfirmations(db: CoordinatorDb, rpc: Txid -> RpcAnswer)
    requires FlagsGood(db.takenOffers)
    modifies db`takenOffers
    ensures FlagsGood(db.takenOffers) && db.takenOffers.Keys == old(db.takenOffers.Keys)
    ensures forall o :: o in db.takenOffers ==>
      var row := old(db.takenOffers)[o];
      db.takenOffers[o] ==
        var answer := rpc(row.terms.escrow.txid);
        if row.confirmed == 0 && PassSucceeds(old(db.takenOffers), rpc)
           && answer.Info? && answer.confirmations.Some? && answer.confirmations.value > 3
        then row.(confirmed := 1) else row
  {
    var unconfirmed := db.FetchUnconfirmedEscrowTxids();
    if unconfirmed == [] {
      assert forall o :: o in db.takenOffers && db.takenOffers[o].confirmed == 0 ==>
        db.takenOffers[o].terms.escrow.txid in unconfirmed;
      return;
    }
    var confirmed := GetConfirmations(unconfirmed, rpc);
    if confirmed.Err? {
      assert !PassSucceeds(db.takenOffers, rpc);
      return;
    }
    QualifyingMembers(rpc, unconfirmed);
    db.ConfirmBondTxids(confirmed.value);
  }
}
