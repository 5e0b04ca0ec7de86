/** The DELETE of an activation names the maker, not the request it has read: when a request that
    replaced an older one is lost, exactly. */
module Replacements {
  import opened Types
  import opened Statements
  import opened EscrowAmounts
  import opened Lifecycle
  import opened MovesAlone
  import opened Overlaps
  import Runs

  /** Some activation has read the maker's `v`th request and is bound to list it, or has. */
  ghost predicate Activated(s: Market, r: Robohash, v: nat) {
    exists id :: id in s.movers && TookRequest(s.movers[id], r, v)
  }

  /** Whatever happens next, the request is not activated. */
  ghost predicate NeverActivated(s: Market, r: Robohash, v: nat) {
    forall s' :: Leads(s, s') ==> !Activated(s', r, v)
  }

  /** The request was placed and is neither pending nor activated. */
  ghost predicate Lost(s: Market, r: Robohash, v: nat) {
    v <= Version(s, r) && !StillPending(s, r, v) && !Activated(s, r, v)
  }

  lemma MovesMoveRequestsOn(s: Market, s': Market, id: nat, env: MoveEnv)
    requires Moves(s, s', id, env)
    ensures RequestsMoveOn(s, s')
  {
    ApplyOnRequests(s, MoverStep(s, s.movers[id], env).1);
  }

  lemma NextMovesRequestsOn(s: Market, s': Market)
    requires Next(s, s')
    ensures RequestsMoveOn(s, s')
  {
    if id, env :| Moves(s, s', id, env) {
      MovesMoveRequestsOn(s, s', id, env);
    } else {
      OthersMoveRequestsOn(s, s');
    }
  }

  /** A request is activated by an activation that reads it pending. */
  lemma NewlyActivated(s: Market, s': Market, r: Robohash, v: nat)
    requires Next(s, s') && Activated(s', r, v) && !Activated(s, r, v)
    ensures StillPending(s, r, v)
  {
    var k :| k in s'.movers && TookRequest(s'.movers[k], r, v);
    if id, env :| Moves(s, s', id, env) {
      StepIsRequestStep(s, s.movers[id], env);
      assert k == id;
    } else {
      OtherStepLeavesMovesAlone(s, s');
    }
  }

  lemma NextKeepsLost(s: Market, s': Market, r: Robohash, v: nat)
    requires Lost(s, r, v) && Next(s, s')
    ensures Lost(s', r, v)
  {
    NextMovesRequestsOn(s, s');
    if Activated(s', r, v) {
      NewlyActivated(s, s', r, v);
    }
  }

  lemma LostForGood(s: Market, r: Robohash, v: nat)
    requires Lost(s, r, v)
    ensures NeverActivated(s, r, v)
  {
    forall s' | Leads(s, s') ensures !Activated(s', r, v) {
      forall u, u' | Lost(u, r, v) && Next(u, u') ensures Lost(u', r, v) {
        NextKeepsLost(u, u', r, v);
      }
      Runs.InvariantContinues(s, s', Next, u => Lost(u, r, v));
    }
  }

  // ---- a pending request can be activated ----

  lemma {:induction false} LongerThan(ids: set<OfferId>) returns (n: nat)
    ensures forall o :: o in ids ==> |o| < n
    decreases ids
  {
    if ids == {} {
      n := 0;
    } else {
      var o :| o in ids;
      var m := LongerThan(ids - {o});
      n := if m > |o| then m else |o| + 1;
      assert forall x :: x in ids ==> x == o || x in ids - {o};
    }
  }

  lemma FreshIds(used: set<OfferId>) returns (o: OfferId, p: OfferId)
    ensures o !in used && p !in used && o != p
  {
    var n := LongerThan(used);
    o := seq(n, i => '0');
    p := o + "0";
  }

  lemma {:induction false} AboveAll(ids: set<nat>) returns (n: nat)
    ensures n !in ids && forall id :: id in ids ==> id < n
    decreases ids
  {
    if ids == {} {
      n := 0;
    } else {
      var id :| id in ids;
      var m := AboveAll(ids - {id});
      n := if m > id then m else id + 1;
      assert forall x :: x in ids ==> x == id || x in ids - {id};
    }
  }

  lemma Activate(s: Market, r: Robohash, v: nat) returns (s': Market)
    requires StillPending(s, r, v)
    ensures Leads(s, s') && Activated(s', r, v)
  {
    Runs.StaysPut(s, Next);
    var id := AboveAll(s.movers.Keys);
    var o, p := FreshIds(s.usedIds);
    var escrow := EscrowPsbt("", "", "", "", 0, 0, 0);
    var data := BondSubmission(r, "", "", "", "", "", "", "");
    s' := ReadRequest(s, s, id, data, MoveEnv(true, o, escrow), MoveEnv(true, p, escrow));
    assert TookRequest(s'.movers[id], r, v);
  }

  /** A request that nobody has read can still be activated exactly while it is pending. */
  lemma NeverActivatedIff(s: Market, r: Robohash, v: nat)
    requires v <= Version(s, r)
    ensures NeverActivated(s, r, v) <==> !StillPending(s, r, v) && !Activated(s, r, v)
  {
    Runs.StaysPut(s, Next);
    if StillPending(s, r, v) {
      var s' := Activate(s, r, v);
    } else if !Activated(s, r, v) {
      LostForGood(s, r, v);
    }
  }

  // ---- the step that loses it ----

  /** This step is the DELETE of an activation that has read an older request of the maker. */
  ghost predicate DeletesUnread(s: Market, s': Market, id: nat, env: MoveEnv, r: Robohash, v: nat) {
    && Moves(s, s', id, env) && s.movers[id].Activation? && s.movers[id].actPc.Read?
    && s.movers[id].data.robohash == r && s.movers[id].actPc.version < v
  }

  lemma ApplyOnPendingOnly(s: Market, e: Effect)
    ensures Apply(s, e).pending == if e.DropRequest? then s.pending - {e.robohash} else s.pending
    ensures Apply(s, e).versions == s.versions
  {
  }

  lemma DropsWhatItsMakerHas(s: Market, m: Mover, env: MoveEnv)
    ensures var e := MoverStep(s, m, env).1;
      && (e.DropRequest? <==> m.Activation? && m.actPc.Read?)
      && (e.DropRequest? ==> e.robohash == m.data.robohash)
  {
  }

  lemma DeletionIsOfUnread(s: Market, s': Market, id: nat, env: MoveEnv, r: Robohash, v: nat)
    requires RequestsCounted(s) && Moves(s, s', id, env) && StillPending(s, r, v) && !Activated(s, r, v)
    ensures !StillPending(s', r, v) <==> DeletesUnread(s, s', id, env, r, v)
  {
    var m := s.movers[id];
    ApplyOnPendingOnly(s, MoverStep(s, m, env).1);
    DropsWhatItsMakerHas(s, m, env);
    if m.Activation? && m.actPc.Read? && m.data.robohash == r {
      assert TookRequest(m, r, m.actPc.version);
    }
  }

  /** A pending request that nobody has read is lost in one step, exactly: when the maker replaces it,
      or when an activation that has read an older request of the maker deletes it. */
  lemma RequestLostIff(s: Market, s': Market, r: Robohash, v: nat)
    requires Reachable(s) && Next(s, s') && StillPending(s, r, v) && !Activated(s, r, v)
    ensures NeverActivated(s', r, v) <==>
      Version(s', r) != v || exists id, env :: DeletesUnread(s, s', id, env, r, v)
  {
    RequestsCountedReachable(s);
    if id, env :| Moves(s, s', id, env) {
      MoveLosesIff(s, s', id, env, r, v);
      forall id', env' | DeletesUnread(s, s', id', env', r, v) ensures NeverActivated(s', r, v) {
        MoveLosesIff(s, s', id', env', r, v);
      }
    } else {
      OtherLosesIff(s, s', r, v);
    }
  }

  lemma OtherLosesIff(s: Market, s': Market, r: Robohash, v: nat)
    requires OtherStep(s, s') && StillPending(s, r, v) && !Activated(s, r, v)
    ensures NeverActivated(s', r, v) <==> Version(s', r) != v
  {
    OtherStepLeavesMovesAlone(s, s');
    OthersMoveRequestsOn(s, s');
    NeverActivatedIff(s', r, v);
    if Version(s', r) == v {
      OthersKeepRequest(s, s', r, v);
    }
  }

  lemma RequestsCountedReachable(s: Market)
    requires Reachable(s)
    ensures RequestsCounted(s)
  {
    forall u, u' | RequestsCounted(u) && Next(u, u') ensures RequestsCounted(u') {
      NextKeepsRequestsCounted(u, u');
    }
    Runs.InvariantReachable(s, Init, Next, RequestsCounted);
  }

  lemma OthersKeepRequest(s: Market, s': Market, r: Robohash, v: nat)
    requires OtherStep(s, s') && StillPending(s, r, v) && Version(s', r) == v
    ensures StillPending(s', r, v)
  {
    if order, address :| Places(s, s', order, address) {
      assert r != order.robohash;
    } else {
      OthersKeepPending(s, s');
    }
  }

  lemma MoveLosesIff(s: Market, s': Market, id: nat, env: MoveEnv, r: Robohash, v: nat)
    requires RequestsCounted(s) && Moves(s, s', id, env) && StillPending(s, r, v) && !Activated(s, r, v)
    ensures Version(s', r) == v
    ensures NeverActivated(s', r, v) <==> DeletesUnread(s, s', id, env, r, v)
  {
    ApplyOnPendingOnly(s, MoverStep(s, s.movers[id], env).1);
    NeverActivatedIff(s', r, v);
    DeletionIsOfUnread(s, s', id, env, r, v);
    assert DeletesUnread(s, s', id, env, r, v) ==> !TookRequest(s'.movers[id], r, v);
    assert forall k :: k in s'.movers && k != id ==> k in s.movers && s'.movers[k] == s.movers[k];
  }

  /** It occurs: the maker replaces its request while its bond for the older one is being handled; the
      newer request is deleted and never activated, and the older one is listed. */
  lemma ReplacementIsLost(feerate: real, older: OfferRequest, newer: OfferRequest, data: BondSubmission,
                          draw: MoveEnv, later: MoveEnv)
    returns (s: Market, s1: Market, s2: Market)
    requires Accepted(older) && Accepted(newer) && newer.robohash == older.robohash && data.robohash == older.robohash
    requires draw.ok && later.freshId != draw.freshId
    ensures Reachable(s) && s.pending == map[newer.robohash := RequestRow(newer, Requirements(newer, feerate, ""))]
    ensures Version(s, newer.robohash) == 2 && !Activated(s, newer.robohash, 2)
    ensures Next(s, s1) && s1.pending == map[] && NeverActivated(s1, newer.robohash, 2)
    ensures Next(s1, s2) && s2.orderbook == map[draw.freshId := ListedRow(RequestRow(older, Requirements(older, feerate, "")), data, "")]
  {
    var o;
    o, s := ReplacedWhileRead(feerate, older, newer, data, draw, later);
    Reached(o, s);
    s1 := DropRequestStep(o, s, 1, later);
    NeverActivatedIff(s1, older.robohash, 2);
    s2 := ListStep(o, s1, 1, later);
  }

  /** An activation has read the older request, and the newer one is pending. */
  lemma ReplacedWhileRead(feerate: real, older: OfferRequest, newer: OfferRequest, data: BondSubmission,
                          draw: MoveEnv, later: MoveEnv)
    returns (o: Market, s: Market)
    requires Accepted(older) && Accepted(newer) && newer.robohash == older.robohash && data.robohash == older.robohash
    requires draw.ok && later.freshId != draw.freshId
    ensures Init(o) && Leads(o, s) && Version(s, older.robohash) == 2
    ensures s.pending == map[older.robohash := RequestRow(newer, Requirements(newer, feerate, ""))]
    ensures s.orderbook == map[] && s.usedIds == {draw.freshId}
    ensures s.movers == map[1 := Activation(data, "", ActPc.Read(
      draw.freshId, RequestRow(older, Requirements(older, feerate, "")), 1))]
  {
    o := Open(feerate);
    var a := Place(o, o, older, "");
    var b := ReadRequest(o, a, 1, data, draw, later);
    s := Place(o, b, newer, "");
  }
}
