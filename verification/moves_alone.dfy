/** The moves between the tables against the handlers and the trade: a move that runs with nothing
    in between ends in the tables its handler leaves, and every statement of a trade is a step the
    tables allow. */
module MovesAlone {
  import opened Types
  import opened Statements
  import opened EscrowAmounts
  import opened Lifecycle
  import Runs
  import Database
  import Trade
  import TradeSlots

  /** One more step of a mover on a continuation of `o`. */
  lemma Advance(o: Market, s: Market, id: nat, env: MoveEnv) returns (s': Market)
    requires Leads(o, s) && id in s.movers && env.freshId !in s.usedIds
    ensures Leads(o, s') && Next(s, s')
    ensures var (m, e) := MoverStep(s, s.movers[id], env); s' == Apply(s, e).(movers := s.movers[id := m])
  {
    var (m, e) := MoverStep(s, s.movers[id], env);
    s' := Apply(s, e).(movers := s.movers[id := m]);
    assert Moves(s, s', id, env);
    Runs.GoesOn(o, s, s', Next);
  }

  lemma AdvanceTaking(o: Market, s: Market, id: nat, env: MoveEnv) returns (s': Market)
    requires Leads(o, s) && id in s.movers && s.movers[id].Taking? && env.freshId !in s.usedIds
    ensures Leads(o, s') && Next(s, s')
    ensures var m := s.movers[id];
      var (m', e) := TakeStep(m, Active(s, m.offerId), s.feerate, env);
      s' == Apply(s, e).(movers := s.movers[id := m'])
  {
    s' := Advance(o, s, id, env);
  }

  lemma AdvanceActivation(o: Market, s: Market, id: nat, env: MoveEnv) returns (s': Market)
    requires Leads(o, s) && id in s.movers && s.movers[id].Activation? && env.freshId !in s.usedIds
    ensures Leads(o, s') && Next(s, s')
    ensures var m := s.movers[id];
      var (m', e) := ActStep(m, Pending(s, m.data.robohash), Version(s, m.data.robohash), env);
      s' == Apply(s, e).(movers := s.movers[id := m'])
  {
    s' := Advance(o, s, id, env);
  }

  /** A taking up to the read of the escrow amounts. */
  lemma TakingUpToInputs(o: Market, s: Market, id: nat, env: MoveEnv) returns (s': Market)
    requires Leads(o, s) && id in s.movers && s.movers[id].Taking? && s.movers[id].takePc.Arrived?
    requires s.movers[id].offerId in s.orderbook && env.ok && env.freshId !in s.usedIds
    ensures Leads(o, s') && s' == s.(movers := s.movers[id := s.movers[id].(takePc := TakePc.InputsRead)])
  {
    s' := AdvanceTaking(o, s, id, env);
    s' := AdvanceTaking(o, s', id, env);
    s' := AdvanceTaking(o, s', id, env);
    assert s'.movers == s.movers[id := s'.movers[id]];
  }

  lemma TakingUpToQuote(o: Market, s: Market, id: nat, env: MoveEnv) returns (s': Market)
    requires Leads(o, s) && id in s.movers && s.movers[id].Taking? && s.movers[id].takePc.Arrived?
    requires s.movers[id].offerId in s.orderbook && env.ok && env.freshId !in s.usedIds
    ensures var quote := QuoteFor(s.orderbook[s.movers[id].offerId], s.feerate, env.escrow);
      Leads(o, s') && s' == s.(movers := s.movers[id := s.movers[id].(takePc := TakePc.Quoted(quote))])
  {
    s' := TakingUpToInputs(o, s, id, env);
    s' := AdvanceTaking(o, s', id, env);
    assert s'.movers == s.movers[id := s'.movers[id]];
  }

  /** The DELETE of a taking. */
  lemma DropOfferStep(o: Market, s: Market, id: nat, env: MoveEnv) returns (s': Market)
    requires Leads(o, s) && id in s.movers && s.movers[id].Taking? && s.movers[id].takePc.Read? && env.freshId !in s.usedIds
    ensures Leads(o, s')
    ensures var m := s.movers[id];
      s' == s.(orderbook := s.orderbook - {m.offerId},
               movers := s.movers[id := m.(takePc := TakePc.Removed(m.takePc.offer, m.takePc.escrow))])
  {
    s' := AdvanceTaking(o, s, id, env);
  }

  /** The INSERT of a taking. */
  lemma InsertStep(o: Market, s: Market, id: nat, env: MoveEnv) returns (s': Market)
    requires Leads(o, s) && id in s.movers && s.movers[id].Taking? && s.movers[id].takePc.Removed? && env.freshId !in s.usedIds
    ensures Leads(o, s') && s'.usedIds == s.usedIds && s'.pending == s.pending && s'.orderbook == s.orderbook
    ensures forall j :: j in s.movers && j != id ==> j in s'.movers && s'.movers[j] == s.movers[j]
    ensures var m := s.movers[id];
      s'.taken == s.taken[m.offerId := FreshRow(TermsOf(m.takePc.offer, m.taker, m.bondAddress, m.takePc.escrow))]
  {
    s' := AdvanceTaking(o, s, id, env);
  }

  /** The DELETE and the INSERT of a taking. */
  lemma FinishTaking(o: Market, s: Market, id: nat, env: MoveEnv) returns (s': Market)
    requires Leads(o, s) && id in s.movers && s.movers[id].Taking? && s.movers[id].takePc.Read? && env.freshId !in s.usedIds
    ensures Leads(o, s') && s'.usedIds == s.usedIds && s'.pending == s.pending
    ensures forall j :: j in s.movers && j != id ==> j in s'.movers && s'.movers[j] == s.movers[j]
    ensures var m := s.movers[id];
      && s'.orderbook == s.orderbook - {m.offerId}
      && s'.taken == s.taken[m.offerId := FreshRow(TermsOf(m.takePc.offer, m.taker, m.bondAddress, m.takePc.escrow))]
  {
    s' := DropOfferStep(o, s, id, env);
    s' := InsertStep(o, s', id, env);
  }

  /** Taking an offer undisturbed ends in the tables that handle_taker_bond leaves when it succeeds:
      the offer leaves the orderbook and is taken once, with the escrow made for it. */
  lemma TakingAlone(s: Market, id: nat, env: MoveEnv) returns (s': Market)
    requires id in s.movers && s.movers[id].Taking? && s.movers[id].takePc.Arrived?
    requires s.movers[id].offerId in s.orderbook && env.ok && env.freshId !in s.usedIds
    ensures var m, offer := s.movers[id], s.orderbook[s.movers[id].offerId];
      && Leads(s, s') && s'.pending == s.pending && s'.orderbook == s.orderbook - {m.offerId}
      && s'.taken ==
         s.taken[m.offerId := FreshRow(TermsOf(offer, m.taker, m.bondAddress, QuoteFor(offer, s.feerate, env.escrow)))]
  {
    Runs.StaysPut(s, Next);
    s' := TakingUpToQuote(s, s, id, env);
    s' := AdvanceTaking(s, s', id, env);
    s' := FinishTaking(s, s', id, env);
  }

  lemma ActivationUpToDraw(o: Market, s: Market, id: nat, env: MoveEnv) returns (s': Market)
    requires Leads(o, s) && id in s.movers && s.movers[id].Activation? && s.movers[id].actPc.Arrived?
    requires s.movers[id].data.robohash in s.pending && env.ok && env.freshId !in s.usedIds
    ensures Leads(o, s')
    ensures s' == s.(usedIds := s.usedIds + {env.freshId},
                     movers := s.movers[id := s.movers[id].(actPc := ActPc.Drawn(env.freshId))])
  {
    s' := AdvanceActivation(o, s, id, env);
    s' := AdvanceActivation(o, s', id, env);
    assert s'.movers == s.movers[id := s'.movers[id]];
  }

  /** The DELETE of an activation. */
  lemma DropRequestStep(o: Market, s: Market, id: nat, env: MoveEnv) returns (s': Market)
    requires Leads(o, s) && id in s.movers && s.movers[id].Activation? && s.movers[id].actPc.Read? && env.freshId !in s.usedIds
    ensures Leads(o, s') && Next(s, s')
    ensures var m := s.movers[id];
      s' == s.(pending := s.pending - {m.data.robohash},
               movers := s.movers[id := m.(actPc := ActPc.Removed(m.actPc.offerId, m.actPc.request, m.actPc.version))])
  {
    s' := AdvanceActivation(o, s, id, env);
  }

  /** The INSERT of an activation. */
  lemma ListStep(o: Market, s: Market, id: nat, env: MoveEnv) returns (s': Market)
    requires Leads(o, s) && id in s.movers && s.movers[id].Activation? && s.movers[id].actPc.Removed? && env.freshId !in s.usedIds
    ensures Leads(o, s') && Next(s, s') && s'.usedIds == s.usedIds && s'.taken == s.taken && s'.pending == s.pending
    ensures s'.movers.Keys == s.movers.Keys && forall j :: j in s.movers && j != id ==> s'.movers[j] == s.movers[j]
    ensures var m := s.movers[id];
      s'.orderbook == s.orderbook[m.actPc.offerId := ListedRow(m.actPc.request, m.data, m.takerBondAddress)]
  {
    s' := AdvanceActivation(o, s, id, env);
  }

  /** The DELETE and the INSERT of an activation. */
  lemma FinishActivation(o: Market, s: Market, id: nat, env: MoveEnv) returns (s': Market)
    requires Leads(o, s) && id in s.movers && s.movers[id].Activation? && s.movers[id].actPc.Read? && env.freshId !in s.usedIds
    ensures Leads(o, s') && s'.usedIds == s.usedIds && s'.taken == s.taken && s'.movers.Keys == s.movers.Keys
    ensures forall j :: j in s.movers && j != id ==> j in s'.movers && s'.movers[j] == s.movers[j]
    ensures var m := s.movers[id];
      && s'.pending == s.pending - {m.data.robohash}
      && s'.orderbook == s.orderbook[m.actPc.offerId := ListedRow(m.actPc.request, m.data, m.takerBondAddress)]
  {
    s' := DropRequestStep(o, s, id, env);
    s' := ListStep(o, s', id, env);
  }

  /** Activating a request undisturbed ends in the tables that handle_maker_bond leaves when it
      succeeds: the request is gone and listed once, under the drawn id. */
  lemma ActivationAlone(s: Market, id: nat, env: MoveEnv, later: MoveEnv) returns (s': Market)
    requires id in s.movers && s.movers[id].Activation? && s.movers[id].actPc.Arrived?
    requires s.movers[id].data.robohash in s.pending && env.ok && env.freshId !in s.usedIds
    requires later.freshId !in s.usedIds && later.freshId != env.freshId
    ensures var m, request := s.movers[id], s.pending[s.movers[id].data.robohash];
      && Leads(s, s') && s'.pending == s.pending - {m.data.robohash} && s'.taken == s.taken
      && s'.orderbook == s.orderbook[env.freshId := ListedRow(request, m.data, m.takerBondAddress)]
  {
    Runs.StaysPut(s, Next);
    s' := ActivationUpToDraw(s, s, id, env);
    s' := AdvanceActivation(s, s', id, later);
    s' := FinishActivation(s, s', id, later);
  }

  /** Every statement of a trade on its row is a step the tables allow: it keeps the terms of the
      row, or deletes it, and no other row is touched. */
  lemma TradeStepsAreTrades(s: Market, o: OfferId, t: Trade.Trade, t': Trade.Trade, id: nat, env: Trade.Env)
    requires o in s.taken && t.row == Some(s.taken[o]) && Trade.Steps(t, t', id, env)
    ensures Next(s, s.(taken := Database.WithRow(s.taken, o, t'.row)))
  {
    TradeSlots.StepWritesOwnSlot(t.row, t.tasks[id], env);
    var s' := s.(taken := Database.WithRow(s.taken, o, t'.row));
    assert Trades(s, s', o, t'.row);
  }
}
