/** What the traders handed in, in the rows of the orderbook and of the taken table. */
module Submissions {
  import opened Types
  import opened Statements
  import opened EscrowAmounts
  import opened Lifecycle
  import Runs

  /** This activation has listed the row. */
  ghost predicate ListedBy(m: Mover, o: OfferId, row: ActiveOffer) {
    && m.Activation? && m.actPc.Placed? && m.actPc.offerId == o
    && OrderColumns(row, m.actPc.request) && SubmissionColumns(row, m.data, m.takerBondAddress)
  }

  /** This taking has inserted the row. */
  ghost predicate TakenBy(m: Mover, o: OfferId, t: Terms) {
    && m.Taking? && m.takePc.Inserted? && m.offerId == o
    && MakerColumns(t, m.takePc.offer) && TakerColumns(t, m.taker, m.bondAddress) && t.escrow == m.takePc.escrow
  }

  ghost predicate ListedBySomeone(s: Market, o: OfferId)
    requires o in s.listed
  {
    exists id :: id in s.movers && ListedBy(s.movers[id], o, s.listed[o])
  }

  ghost predicate TakenBySomeone(s: Market, o: OfferId)
    requires o in s.taken
  {
    exists id :: id in s.movers && TakenBy(s.movers[id], o, s.taken[o].terms)
  }

  ghost predicate RowsTraced(s: Market) {
    && (forall o :: o in s.listed ==> ListedBySomeone(s, o))
    && (forall o :: o in s.taken ==> TakenBySomeone(s, o))
  }

  /** What one step of a mover adds to the tables is its own row, and a mover that is done stays so. */
  lemma StepAddsOwnRow(s: Market, m: Mover, env: MoveEnv)
    ensures var (m', e) := MoverStep(s, m, env);
      && (e.List? ==> ListedBy(m', e.offerId, e.row))
      && (e.Insert? ==> TakenBy(m', e.offerId, e.terms))
      && (m.Activation? && m.actPc.Placed? ==> m' == m)
      && (m.Taking? && m.takePc.Inserted? ==> m' == m)
  {
  }

  lemma ApplyOnRows(s: Market, e: Effect)
    ensures Apply(s, e).listed == if e.List? then s.listed[e.offerId := e.row] else s.listed
    ensures Apply(s, e).taken == if e.Insert? then s.taken[e.offerId := FreshRow(e.terms)] else s.taken
  {
  }

  lemma MovesKeepRowsTraced(s: Market, s': Market, id: nat, env: MoveEnv)
    requires RowsTraced(s) && Moves(s, s', id, env)
    ensures RowsTraced(s')
  {
    var (m, e) := MoverStep(s, s.movers[id], env);
    StepAddsOwnRow(s, s.movers[id], env);
    ApplyOnRows(s, e);
    forall o | o in s'.listed ensures ListedBySomeone(s', o) {
      if e.List? && e.offerId == o {
        assert ListedBy(s'.movers[id], o, s'.listed[o]);
      } else {
        var k :| k in s.movers && ListedBy(s.movers[k], o, s.listed[o]);
        assert s'.movers[k] == s.movers[k];
      }
    }
    forall o | o in s'.taken ensures TakenBySomeone(s', o) {
      if e.Insert? && e.offerId == o {
        assert TakenBy(s'.movers[id], o, s'.taken[o].terms);
      } else {
        var k :| k in s.movers && TakenBy(s.movers[k], o, s.taken[o].terms);
        assert s'.movers[k] == s.movers[k];
      }
    }
  }

  /** The environment adds no row and keeps the terms of each. */
  lemma OthersKeepTerms(s: Market, s': Market)
    requires OtherStep(s, s')
    ensures forall o :: o in s'.taken ==> o in s.taken && s'.taken[o].terms == s.taken[o].terms
  {
    if o, row :| Trades(s, s', o, row) {
    } else if order, address :| Places(s, s', order, address) {
    } else if id, m :| Arrives(s, s', id, m) {
    } else {
      var o :| Punishes(s, s', o);
    }
  }

  lemma OthersKeepRowsTraced(s: Market, s': Market)
    requires RowsTraced(s) && OtherStep(s, s')
    ensures RowsTraced(s')
  {
    OthersKeepTerms(s, s');
    OtherStepLeavesMovesAlone(s, s');
    forall o | o in s'.listed ensures ListedBySomeone(s', o) {
      var k :| k in s.movers && ListedBy(s.movers[k], o, s.listed[o]);
      assert s'.movers[k] == s.movers[k];
    }
    forall o | o in s'.taken ensures TakenBySomeone(s', o) {
      var k :| k in s.movers && TakenBy(s.movers[k], o, s.taken[o].terms);
      assert s'.movers[k] == s.movers[k];
    }
  }

  lemma ReachableRowsTraced(s: Market)
    requires Reachable(s)
    ensures RowsTraced(s)
  {
    forall u, u' | RowsTraced(u) && Next(u, u') ensures RowsTraced(u') {
      if id, env :| Moves(u, u', id, env) {
        MovesKeepRowsTraced(u, u', id, env);
      } else {
        OthersKeepRowsTraced(u, u');
      }
    }
    Runs.InvariantReachable(s, Init, Next, RowsTraced);
  }

  /** The columns of both submissions in a taken row, each with its own trader. */
  predicate BothSubmissions(t: Terms, maker: BondSubmission, taker: BondSubmission, takerBondAddress: Address) {
    && t.robohashMaker == maker.robohash && t.robohashTaker == taker.robohash
    && t.bondTxHexMaker == maker.signedBondHex && t.bondTxHexTaker == taker.signedBondHex
    && t.payoutAddressMaker == maker.payoutAddress && t.payoutAddressTaker == taker.payoutAddress
    && t.taprootPubkeyHexMaker == maker.taprootPubkeyHex && t.taprootPubkeyHexTaker == taker.taprootPubkeyHex
    && t.musigPubNonceHexMaker == maker.musigPubNonceHex && t.musigPubNonceHexTaker == taker.musigPubNonceHex
    && t.musigPubkeyHexMaker == maker.musigPubkeyHex && t.musigPubkeyHexTaker == taker.musigPubkeyHex
    && t.bondAddressTaker == takerBondAddress
  }

  /** Activation `i` has listed the offer, taking `j` has taken it, and the row has their submissions. */
  ghost predicate HandedInBy(s: Market, i: nat, j: nat, o: OfferId)
    requires o in s.taken
  {
    && i in s.movers && s.movers[i].Activation? && s.movers[i].actPc.Placed? && s.movers[i].actPc.offerId == o
    && j in s.movers && s.movers[j].Taking? && s.movers[j].takePc.Inserted? && s.movers[j].offerId == o
    && BothSubmissions(s.taken[o].terms, s.movers[i].data, s.movers[j].taker, s.movers[j].bondAddress)
  }

  /** Through both moves, in every reachable state: a taken row carries what its maker handed in to list
      the offer and what its taker handed in to take it, column by column. */
  lemma SubmissionsCarried(s: Market, o: OfferId)
    requires Reachable(s) && o in s.taken
    ensures exists i, j :: HandedInBy(s, i, j, o)
  {
    ReachableSound(s);
    ReachableRowsTraced(s);
    assert CarriedFrom(s.listed[o], s.feerate, s.taken[o].terms);
    var i :| i in s.movers && ListedBy(s.movers[i], o, s.listed[o]);
    var j :| j in s.movers && TakenBy(s.movers[j], o, s.taken[o].terms);
    assert HandedInBy(s, i, j, o);
  }

  /** In every reachable state a listed row carries the request it was made from and what its maker
      handed in, column by column. */
  lemma ListingCarried(s: Market, o: OfferId)
    requires Reachable(s) && o in s.listed
    ensures exists i :: i in s.movers && ListedBy(s.movers[i], o, s.listed[o])
  {
    ReachableRowsTraced(s);
  }

  predicate IsBond(bond: nat, ratio: nat, amount: nat) {
    100 * bond <= ratio * amount < 100 * bond + 100
  }

  /** In every reachable state the bond of each pending, listed and taken row is its ratio of its
      amount, rounded down. */
  lemma BondsAreRatios(s: Market)
    requires Reachable(s)
    ensures forall r :: r in s.pending ==>
      IsBond(s.pending[r].bondAmountSat, s.pending[r].bondRatio, s.pending[r].amountSat)
    ensures forall o :: o in s.listed ==>
      IsBond(s.listed[o].bondAmountSat, s.listed[o].bondRatio, s.listed[o].amountSat)
    ensures forall o :: o in s.taken ==>
      IsBond(s.taken[o].terms.bondAmountSat, s.taken[o].terms.bondRatio, s.taken[o].terms.amountSat)
  {
    ReachableSound(s);
    forall o | o in s.taken
      ensures IsBond(s.taken[o].terms.bondAmountSat, s.taken[o].terms.bondRatio, s.taken[o].terms.amountSat)
    {
      assert CarriedFrom(s.listed[o], s.feerate, s.taken[o].terms) && OfferGood(s.listed[o]);
    }
  }
}
