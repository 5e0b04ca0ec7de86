/** The command line on which the coordinator decides disputes. */
module EscrowCli {
  import opened Types
  import opened Database

  /** A row after its dispute was decided; a row without one is left alone. */
  function Decided(offerId: OfferId, row: TakenOffer, makerWins: EscrowCase -> bool): (row': TakenOffer)
    ensures row'.escrowOngoing != 1
    ensures row.escrowOngoing != 1 ==> row' == row
    ensures row.escrowOngoing == 1 ==>
      && row'.escrowOngoing == 0
      && row'.escrowWinner == Some(
           if makerWins(EscrowCase(offerId, row.terms.robohashMaker, row.terms.robohashTaker))
           then row.terms.robohashMaker else row.terms.robohashTaker)
      && row' == row.(escrowOngoing := 0, escrowWinner := row'.escrowWinner)
  {
    if row.escrowOngoing != 1 then row
    else
      var case' := EscrowCase(offerId, row.terms.robohashMaker, row.terms.robohashTaker);
      row.(escrowOngoing := 0, escrowWinner := Some(if makerWins(case') then case'.maker else case'.taker))
  }

  /** One turn of the loop: every open dispute is decided and closed, for the trader the operator
      names, and no other row changes. */
  method EscrowCliPass(db: CoordinatorDb, makerWins: EscrowCase -> bool)
    modifies db`takenOffers
    ensures db.takenOffers == map o | o in old(db.takenOffers) :: Decided(o, old(db.takenOffers)[o], makerWins)
  {
    ghost var before := db.takenOffers;
    var cases := db.GetOpenEscrows();
    for n := 0 to |cases|
      invariant db.takenOffers.Keys == before.Keys
      invariant forall o :: o in before ==>
        db.takenOffers[o] == if Seen(cases[..n], o) then Decided(o, before[o], makerWins) else before[o]
    {
      var c := cases[n];
      assert c in cases;
      SeenMore(cases, n);
      var winner := if makerWins(c) then c.maker else c.taker;
      db.ResolveEscrow(c.offerId, winner);
    }
    assert cases[..|cases|] == cases;
    forall o | o in before ensures db.takenOffers[o] == Decided(o, before[o], makerWins) {
      if before[o].escrowOngoing == 1 {
        assert EscrowCase(o, before[o].terms.robohashMaker, before[o].terms.robohashTaker) in cases;
      }
    }
  }

  predicate Seen(cases: seq<EscrowCase>, o: OfferId) {
    exists i :: 0 <= i < |cases| && cases[i].offerId == o
  }

  lemma SeenMore(cases: seq<EscrowCase>, n: nat)
    requires n < |cases|
    ensures forall o :: Seen(cases[..n + 1], o) <==> Seen(cases[..n], o) || o == cases[n].offerId
  {
    forall o ensures Seen(cases[..n + 1], o) <==> Seen(cases[..n], o) || o == cases[n].offerId {
      if i :| 0 <= i < n && cases[..n][i].offerId == o {
        assert cases[..n + 1][i].offerId == o;
      }
      assert cases[..n + 1][n] == cases[n];
    }
  }
}
