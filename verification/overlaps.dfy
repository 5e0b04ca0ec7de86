/** Two moves of one row at the same time: when they occur, and what they do. */
module Overlaps {
  import opened Types
  import opened Statements
  import opened EscrowAmounts
  import opened Lifecycle
  import opened MovesAlone
  import Runs

  /** Two takers both stand between their SELECT and their DELETE of this offer. */
  ghost predicate ReadTogether(s: Market, o: OfferId) {
    exists i, j :: BothHold(s, i, j, o)
  }

  ghost predicate BothHold(s: Market, i: nat, j: nat, o: OfferId) {
    i in s.movers && j in s.movers && i != j && HoldsOffer(s.movers[i], o) && HoldsOffer(s.movers[j], o)
  }

  /** The same for the request a maker placed as its `v`th. */
  ghost predicate RequestReadTogether(s: Market, r: Robohash, v: nat) {
    exists i, j :: BothHoldRequest(s, i, j, r, v)
  }

  ghost predicate BothHoldRequest(s: Market, i: nat, j: nat, r: Robohash, v: nat) {
    i in s.movers && j in s.movers && i != j && HoldsRequest(s.movers[i], r, v) && HoldsRequest(s.movers[j], r, v)
  }

  // ---- the histories of overlaps are what two states in a row show ----

  ghost predicate OverlapsGrow(s: Market, s': Market) {
    && s.offerOverlap <= s'.offerOverlap && s.requestOverlap <= s'.requestOverlap
    && (forall o :: o in s'.offerOverlap && o !in s.offerOverlap ==> ReadTogether(s', o))
    && (forall r, v: nat :: (r, v) in s'.requestOverlap && (r, v) !in s.requestOverlap ==> RequestReadTogether(s', r, v))
  }

  lemma MovesGrowOverlaps(s: Market, s': Market, id: nat, env: MoveEnv)
    requires Moves(s, s', id, env)
    ensures OverlapsGrow(s, s')
  {
    var (m, e) := MoverStep(s, s.movers[id], env);
    StepIsOfferStep(s, s.movers[id], env);
    StepIsRequestStep(s, s.movers[id], env);
    ApplyOnOverlap(s, e);
    ApplyOnRequests(s, e);
    forall o | o in s'.offerOverlap && o !in s.offerOverlap ensures ReadTogether(s', o) {
      var k :| k in s.movers && HoldsOffer(s.movers[k], o);
      assert BothHold(s', k, id, o);
    }
    forall r, v: nat | (r, v) in s'.requestOverlap && (r, v) !in s.requestOverlap ensures RequestReadTogether(s', r, v) {
      var k :| k in s.movers && HoldsRequest(s.movers[k], r, v);
      assert BothHoldRequest(s', k, id, r, v);
    }
  }

  lemma NextGrowsOverlaps(s: Market, s': Market)
    requires Next(s, s')
    ensures OverlapsGrow(s, s')
  {
    if id, env :| Moves(s, s', id, env) {
      MovesGrowOverlaps(s, s', id, env);
    } else {
      OthersKeepOverlap(s, s');
    }
  }

  lemma RunStepGrowsOverlaps(run: seq<Market>, n: nat)
    requires IsRun(run) && n + 1 < |run|
    ensures OverlapsGrow(run[n], run[n + 1])
  {
    assert Runs.StepAt(run, Next, n);
    NextGrowsOverlaps(run[n], run[n + 1]);
  }

  lemma {:induction false} OfferOverlapSeen(run: seq<Market>, i: nat, o: OfferId)
    requires IsRun(run) && i < |run| && o in run[i].offerOverlap
    ensures exists n :: 0 <= n <= i && ReadTogether(run[n], o)
  {
    if i > 0 {
      RunStepGrowsOverlaps(run, i - 1);
      if o in run[i - 1].offerOverlap {
        OfferOverlapSeen(run, i - 1, o);
      }
    }
  }

  lemma {:induction false} RequestOverlapSeen(run: seq<Market>, i: nat, r: Robohash, v: nat)
    requires IsRun(run) && i < |run| && (r, v) in run[i].requestOverlap
    ensures exists n :: 0 <= n <= i && RequestReadTogether(run[n], r, v)
  {
    if i > 0 {
      RunStepGrowsOverlaps(run, i - 1);
      if (r, v) in run[i - 1].requestOverlap {
        RequestOverlapSeen(run, i - 1, r, v);
      }
    }
  }

  lemma {:induction false} OverlapsLast(run: seq<Market>, i: nat, j: nat)
    requires IsRun(run) && i <= j < |run|
    ensures run[i].offerOverlap <= run[j].offerOverlap && run[i].requestOverlap <= run[j].requestOverlap
  {
    if i < j {
      OverlapsLast(run, i, j - 1);
      RunStepGrowsOverlaps(run, j - 1);
    }
  }

  lemma ReadTogetherIsOverlap(s: Market, o: OfferId)
    requires Reachable(s) && ReadTogether(s, o)
    ensures o in s.offerOverlap
  {
    var i, j :| BothHold(s, i, j, o);
    TakenTwiceIffOverlap(s, o);
    assert TookBoth(s, i, j, o);
  }

  lemma RequestReadTogetherIsOverlap(s: Market, r: Robohash, v: nat)
    requires Reachable(s) && RequestReadTogether(s, r, v)
    ensures (r, v) in s.requestOverlap
  {
    var i, j :| BothHoldRequest(s, i, j, r, v);
    ActivatedTwiceIffOverlap(s, r, v);
    assert TookBothRequests(s, i, j, r, v);
  }

  /** Over every run: an offer is taken by two takers exactly when in some state of the run two of
      them stood between SELECT and DELETE of its row. So where at most one does in every state, each
      offer is taken at most once. */
  lemma TakenTwiceIffReadTogether(run: seq<Market>, o: OfferId)
    requires IsRun(run)
    ensures TookTwice(run[|run| - 1], o) <==> exists n :: 0 <= n < |run| && ReadTogether(run[n], o)
  {
    var last := |run| - 1;
    Runs.RunStateReachable(run, Init, Next, last);
    TakenTwiceIffOverlap(run[last], o);
    if o in run[last].offerOverlap {
      OfferOverlapSeen(run, last, o);
    }
    if n :| 0 <= n < |run| && ReadTogether(run[n], o) {
      Runs.RunStateReachable(run, Init, Next, n);
      ReadTogetherIsOverlap(run[n], o);
      OverlapsLast(run, n, last);
    }
  }

  /** The same for the activations of one request. */
  lemma ActivatedTwiceIffReadTogether(run: seq<Market>, r: Robohash, v: nat)
    requires IsRun(run)
    ensures RequestTookTwice(run[|run| - 1], r, v) <==>
      exists n :: 0 <= n < |run| && RequestReadTogether(run[n], r, v)
  {
    var last := |run| - 1;
    Runs.RunStateReachable(run, Init, Next, last);
    ActivatedTwiceIffOverlap(run[last], r, v);
    if (r, v) in run[last].requestOverlap {
      RequestOverlapSeen(run, last, r, v);
    }
    if n :| 0 <= n < |run| && RequestReadTogether(run[n], r, v) {
      Runs.RunStateReachable(run, Init, Next, n);
      RequestReadTogetherIsOverlap(run[n], r, v);
      OverlapsLast(run, n, last);
    }
  }

  // ---- two activations of one request read the same ----

  ghost predicate ReadersAgree(s: Market) {
    && (forall id, r, v: nat :: id in s.movers && TookRequest(s.movers[id], r, v) && StillPending(s, r, v) ==>
          s.movers[id].actPc.request == s.pending[r])
    && (forall i, j, r, v: nat :: TookBothRequests(s, i, j, r, v) ==> s.movers[i].actPc.request == s.movers[j].actPc.request)
  }

  ghost predicate CountedAndAgreed(s: Market) {
    RequestsCounted(s) && ReadersAgree(s)
  }

  /** A step of a mover keeps the request it has read, or reads the pending one. */
  lemma StepKeepsRequest(s: Market, m: Mover, env: MoveEnv, r: Robohash, v: nat)
    requires TookRequest(MoverStep(s, m, env).0, r, v)
    ensures var m' := MoverStep(s, m, env).0;
      if TookRequest(m, r, v) then m'.actPc.request == m.actPc.request
      else StillPending(s, r, v) && m'.actPc.request == s.pending[r]
  {
  }

  /** What a step of a mover leaves of the pending requests. */
  lemma ApplyOnPending(s: Market, e: Effect)
    ensures Apply(s, e).versions == s.versions
    ensures forall r :: r in Apply(s, e).pending ==> r in s.pending && Apply(s, e).pending[r] == s.pending[r]
  {
  }

  lemma MovesKeepReadersAgree(s: Market, s': Market, id: nat, env: MoveEnv)
    requires ReadersAgree(s) && Moves(s, s', id, env)
    ensures ReadersAgree(s')
  {
    var (m, e) := MoverStep(s, s.movers[id], env);
    ApplyOnPending(s, e);
    forall k, r, v: nat | k in s'.movers && TookRequest(s'.movers[k], r, v) && StillPending(s', r, v)
      ensures s'.movers[k].actPc.request == s'.pending[r]
    {
      assert StillPending(s, r, v) && s'.pending[r] == s.pending[r];
      if k == id {
        StepKeepsRequest(s, s.movers[id], env, r, v);
      } else {
        assert TookRequest(s.movers[k], r, v);
      }
    }
    forall i, j, r, v: nat | TookBothRequests(s', i, j, r, v)
      ensures s'.movers[i].actPc.request == s'.movers[j].actPc.request
    {
      if i == id || j == id {
        StepKeepsRequest(s, s.movers[id], env, r, v);
      }
      if TookRequest(s.movers[i], r, v) && TookRequest(s.movers[j], r, v) {
        assert TookBothRequests(s, i, j, r, v);
      }
    }
  }

  /** A pending request is only replaced under a new version. */
  lemma OthersReplaceNothing(s: Market, s': Market, r: Robohash, v: nat)
    requires OtherStep(s, s') && StillPending(s', r, v) && v <= Version(s, r)
    ensures StillPending(s, r, v) && s'.pending[r] == s.pending[r]
  {
    if order, address :| Places(s, s', order, address) {
      assert r != order.robohash;
    } else {
      OthersKeepPending(s, s');
    }
  }

  lemma OthersKeepReadersAgree(s: Market, s': Market)
    requires CountedAndAgreed(s) && OtherStep(s, s')
    ensures ReadersAgree(s')
  {
    OtherStepLeavesMovesAlone(s, s');
    forall k, r, v: nat | k in s'.movers && TookRequest(s'.movers[k], r, v) && StillPending(s', r, v)
      ensures s'.movers[k].actPc.request == s'.pending[r]
    {
      assert k in s.movers && v <= Version(s, r);
      OthersReplaceNothing(s, s', r, v);
    }
    forall i, j, r, v: nat | TookBothRequests(s', i, j, r, v)
      ensures s'.movers[i].actPc.request == s'.movers[j].actPc.request
    {
      assert TookBothRequests(s, i, j, r, v);
    }
  }

  lemma NextKeepsAgreed(s: Market, s': Market)
    requires CountedAndAgreed(s) && Next(s, s')
    ensures CountedAndAgreed(s')
  {
    NextKeepsRequestsCounted(s, s');
    if id, env :| Moves(s, s', id, env) {
      MovesKeepReadersAgree(s, s', id, env);
    } else {
      OthersKeepReadersAgree(s, s');
    }
  }

  lemma ReachableAgreed(s: Market)
    requires Reachable(s)
    ensures ReadersAgree(s)
  {
    forall s, s' | CountedAndAgreed(s) && Next(s, s') ensures CountedAndAgreed(s') {
      NextKeepsAgreed(s, s');
    }
    Runs.InvariantReachable(s, Init, Next, CountedAndAgreed);
  }

  // ---- what the overlap does ----

  /** Wherever two takers stand there together, four more steps take the offer twice: the second
      INSERT OR REPLACE puts the second taker's trade in the place of the first one's. */
  lemma OverlapReplacesTrade(s: Market, i: nat, j: nat, o: OfferId, env: MoveEnv) returns (s1: Market, s2: Market)
    requires BothHold(s, i, j, o) && env.freshId !in s.usedIds
    ensures Leads(s, s1) && o in s1.taken && s1.taken[o].terms.robohashTaker == s.movers[i].taker.robohash
    ensures Leads(s1, s2) && o in s2.taken && s2.taken[o].terms.robohashTaker == s.movers[j].taker.robohash
  {
    Runs.StaysPut(s, Next);
    s1 := FinishTaking(s, s, i, env);
    Runs.StaysPut(s1, Next);
    s2 := FinishTaking(s1, s1, j, env);
  }

  /** Wherever two activations of one request stand there together, four more steps list it twice:
      the same request under two ids. */
  lemma OverlapListsTwice(s: Market, i: nat, j: nat, r: Robohash, v: nat, env: MoveEnv) returns (s': Market)
    requires Reachable(s) && BothHoldRequest(s, i, j, r, v) && env.freshId !in s.usedIds
    ensures var mi, mj := s.movers[i], s.movers[j];
      var request := mi.actPc.request;
      && Leads(s, s') && mi.actPc.offerId != mj.actPc.offerId
      && s'.orderbook == s.orderbook[mi.actPc.offerId := ListedRow(request, mi.data, mi.takerBondAddress)]
                                    [mj.actPc.offerId := ListedRow(request, mj.data, mj.takerBondAddress)]
  {
    ReachableAgreed(s);
    ReachableSound(s);
    assert TookBothRequests(s, i, j, r, v) && DrawnId(s.movers[i]).Some? && DrawnId(s.movers[j]).Some?;
    Runs.StaysPut(s, Next);
    var s1 := FinishActivation(s, s, i, env);
    s' := FinishActivation(s, s1, j, env);
  }

  // ---- and that it occurs ----

  lemma Place(o: Market, s: Market, order: OfferRequest, address: Address) returns (s': Market)
    requires Leads(o, s) && Accepted(order)
    ensures Leads(o, s') && Places(s, s', order, address)
  {
    s' := s.(pending := s.pending[order.robohash := RequestRow(order, Requirements(order, s.feerate, address))],
             versions := s.versions[order.robohash := Version(s, order.robohash) + 1]);
    assert Places(s, s', order, address);
    Runs.GoesOn(o, s, s', Next);
  }

  lemma Arrive(o: Market, s: Market, id: nat, m: Mover) returns (s': Market)
    requires Leads(o, s) && id !in s.movers && IsNew(m)
    ensures Leads(o, s') && s' == s.(movers := s.movers[id := m])
  {
    s' := s.(movers := s.movers[id := m]);
    assert Arrives(s, s', id, m);
    Runs.GoesOn(o, s, s', Next);
  }

  /** An activation that has read its request. */
  lemma ReadRequest(o: Market, s: Market, id: nat, data: BondSubmission, draw: MoveEnv, later: MoveEnv) returns (s': Market)
    requires Leads(o, s) && id !in s.movers && data.robohash in s.pending && draw.ok && draw.freshId !in s.usedIds
    requires later.freshId !in s.usedIds && later.freshId != draw.freshId
    ensures Leads(o, s') && s'.pending == s.pending && s'.orderbook == s.orderbook && s'.usedIds == s.usedIds + {draw.freshId}
    ensures s'.versions == s.versions && s'.feerate == s.feerate
    ensures s'.movers == s.movers[id := Activation(data, "",
      ActPc.Read(draw.freshId, s.pending[data.robohash], Version(s, data.robohash)))]
  {
    s' := Arrive(o, s, id, Activation(data, "", ActPc.Arrived));
    s' := ActivationUpToDraw(o, s', id, draw);
    s' := AdvanceActivation(o, s', id, later);
  }

  /** A taking that has read its offer. */
  lemma ReadOffer(o: Market, s: Market, id: nat, offerId: OfferId, taker: BondSubmission, env: MoveEnv) returns (s': Market)
    requires Leads(o, s) && id !in s.movers && offerId in s.orderbook && env.ok && env.freshId !in s.usedIds
    ensures Leads(o, s') && s'.orderbook == s.orderbook && s'.usedIds == s.usedIds
    ensures s'.movers.Keys == s.movers.Keys + {id} && (forall j :: j in s.movers ==> s'.movers[j] == s.movers[j])
    ensures HoldsOffer(s'.movers[id], offerId) && s'.movers[id].taker == taker
  {
    s' := Arrive(o, s, id, Taking(offerId, taker, "", TakePc.Arrived));
    s' := TakingUpToQuote(o, s', id, env);
    s' := AdvanceTaking(o, s', id, env);
  }

  lemma Open(feerate: real) returns (s: Market)
    ensures Init(s) && Leads(s, s) && s.feerate == feerate
  {
    s := Market(feerate, map[], map[], map[], map[], {}, map[], map[], {}, {});
    Runs.StaysPut(s, Next);
  }

  lemma Reached(o: Market, s: Market)
    requires Init(o) && Leads(o, s)
    ensures Reachable(s)
  {
    assert Runs.IsRun([o], Init, Next) && [o][|[o]| - 1] == o;
    Runs.StaysReachable(o, s, Init, Next);
  }

  /** Any accepted request can end as two orderbook rows under two ids. */
  lemma RequestIsListedTwice(feerate: real, order: OfferRequest, a: BondSubmission, b: BondSubmission,
                             draw1: MoveEnv, draw2: MoveEnv, later: MoveEnv)
    returns (s: Market)
    requires Accepted(order) && a.robohash == order.robohash && b.robohash == order.robohash
    requires draw1.ok && draw2.ok && draw1.freshId != draw2.freshId
    requires later.freshId != draw1.freshId && later.freshId != draw2.freshId
    ensures var request := RequestRow(order, Requirements(order, feerate, ""));
      && Reachable(s) && s.pending == map[]
      && s.orderbook == map[draw1.freshId := ListedRow(request, a, ""), draw2.freshId := ListedRow(request, b, "")]
  {
    var o := Open(feerate);
    var s1 := Place(o, o, order, "");
    var s2 := ReadRequest(o, s1, 1, a, draw1, later);
    var s3 := ReadRequest(o, s2, 2, b, draw2, later);
    var s4 := FinishActivation(o, s3, 1, later);
    s := FinishActivation(o, s4, 2, later);
    Reached(o, s);
  }

  /** Any accepted order can end as a trade whose first taker was replaced by a second one. */
  lemma TakerIsReplaced(feerate: real, order: OfferRequest, maker: BondSubmission, a: BondSubmission, b: BondSubmission,
                        draw: MoveEnv, later: MoveEnv)
    returns (s: Market, s1: Market, s2: Market)
    requires Accepted(order) && maker.robohash == order.robohash && draw.ok && later.ok && later.freshId != draw.freshId
    ensures Reachable(s) && BothHold(s, 2, 3, draw.freshId)
    ensures Leads(s, s1) && draw.freshId in s1.taken && s1.taken[draw.freshId].terms.robohashTaker == a.robohash
    ensures Leads(s1, s2) && draw.freshId in s2.taken && s2.taken[draw.freshId].terms.robohashTaker == b.robohash
  {
    var o := Open(feerate);
    s := Place(o, o, order, "");
    s := ReadRequest(o, s, 1, maker, draw, later);
    s := FinishActivation(o, s, 1, later);
    s := BothRead(o, s, draw.freshId, a, b, later);
    Reached(o, s);
    s1, s2 := OverlapReplacesTrade(s, 2, 3, draw.freshId, later);
  }

  lemma BothRead(o: Market, s: Market, offerId: OfferId, a: BondSubmission, b: BondSubmission, env: MoveEnv) returns (s': Market)
    requires Leads(o, s) && 2 !in s.movers && 3 !in s.movers && offerId in s.orderbook && env.ok && env.freshId !in s.usedIds
    ensures Leads(o, s') && BothHold(s', 2, 3, offerId) && s'.usedIds == s.usedIds
    ensures s'.movers[2].taker == a && s'.movers[3].taker == b
  {
    s' := ReadOffer(o, s, 2, offerId, a, env);
    s' := ReadOffer(o, s', 3, offerId, b, env);
  }
}
