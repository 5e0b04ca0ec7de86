/** The way of an offer through the three tables, with every SELECT, DELETE and INSERT of every
    move as a step of its own, interleaved with all other moves and with the bond monitor. */
module Lifecycle {
  import opened Types
  import opened Statements
  import opened EscrowAmounts
  import Runs
  import Database

  // ---- moves ----

  /** handle_maker_bond: from maker_requests to the orderbook. `version` tells apart the requests
      one maker places one after the other. */
  datatype ActPc =
    | Arrived | Required | Drawn(offerId: OfferId)
    | Read(offerId: OfferId, request: MakerRequest, version: nat)
    | Removed(offerId: OfferId, request: MakerRequest, version: nat)
    | Placed(offerId: OfferId, request: MakerRequest, version: nat)
    | Refused

  /** handle_taker_bond: from the orderbook to taken_offers. */
  datatype TakePc =
    | Arrived | Required | Validated | InputsRead | Quoted(escrow: EscrowPsbt)
    | Read(offer: ActiveOffer, escrow: EscrowPsbt)
    | Removed(offer: ActiveOffer, escrow: EscrowPsbt)
    | Inserted(offer: ActiveOffer, escrow: EscrowPsbt)
    | Refused

  datatype Mover =
    | Activation(data: BondSubmission, takerBondAddress: Address, actPc: ActPc)
    | Taking(offerId: OfferId, taker: BondSubmission, bondAddress: Address, takePc: TakePc)

  /** Outcomes outside the tables: validation and escrow creation, the random id, and the parts of
      the escrow that do not come from the row. */
  datatype MoveEnv = MoveEnv(ok: bool, freshId: OfferId, escrow: EscrowPsbt)

  /** `listed`, `versions` and the two overlap sets are history: every row ever listed under an id,
      how many requests a maker has placed, and which rows were read for a move while another move
      of the same row stood between its own SELECT and DELETE. */
  datatype Market = Market(
    feerate: real,
    pending: map<Robohash, MakerRequest>,
    orderbook: map<OfferId, ActiveOffer>,
    taken: map<OfferId, TakenOffer>,
    movers: map<nat, Mover>,
    usedIds: set<OfferId>,
    listed: map<OfferId, ActiveOffer>,
    versions: map<Robohash, nat>,
    requestOverlap: set<(Robohash, nat)>,
    offerOverlap: set<OfferId>)

  function Version(s: Market, robohash: Robohash): nat {
    if robohash in s.versions then s.versions[robohash] else 0
  }

  /** What one step of a move does to the tables. */
  datatype Effect =
    | Nothing
    | Draw(offerId: OfferId)
    | SelectRequest(robohash: Robohash, version: nat)
    | DropRequest(robohash: Robohash)
    | List(offerId: OfferId, row: ActiveOffer)
    | SelectOffer(offerId: OfferId)
    | DropOffer(offerId: OfferId)
    | Insert(offerId: OfferId, terms: Terms)

  /** One step of an activation that finds `row` as the maker's pending request. */
  function ActStep(m: Mover, row: Option<MakerRequest>, version: nat, env: MoveEnv): (Mover, Effect)
    requires m.Activation?
  {
    match m.actPc
    case Arrived => (m.(actPc := if row.Some? then ActPc.Required else ActPc.Refused), Nothing)
    case Required =>
      if env.ok then (m.(actPc := ActPc.Drawn(env.freshId)), Draw(env.freshId)) else (m.(actPc := ActPc.Refused), Nothing)
    case Drawn(o) =>
      if row.None? then (m.(actPc := ActPc.Refused), Nothing)
      else (m.(actPc := ActPc.Read(o, row.value, version)), SelectRequest(m.data.robohash, version))
    case Read(o, request, v) => (m.(actPc := ActPc.Removed(o, request, v)), DropRequest(m.data.robohash))
    case Removed(o, request, v) =>
      (m.(actPc := ActPc.Placed(o, request, v)), List(o, ListedRow(request, m.data, m.takerBondAddress)))
    case Placed(_, _, _) => (m, Nothing)
    case Refused => (m, Nothing)
  }

  /** One step of a taking that finds `row` in the orderbook. */
  function TakeStep(m: Mover, row: Option<ActiveOffer>, feerate: real, env: MoveEnv): (Mover, Effect)
    requires m.Taking?
  {
    match m.takePc
    case Arrived => (m.(takePc := if row.Some? then TakePc.Required else TakePc.Refused), Nothing)
    case Required => (m.(takePc := if env.ok then TakePc.Validated else TakePc.Refused), Nothing)
    case Validated => (m.(takePc := if row.Some? then TakePc.InputsRead else TakePc.Refused), Nothing)
    case InputsRead =>
      if row.Some? && env.ok then (m.(takePc := TakePc.Quoted(QuoteFor(row.value, feerate, env.escrow))), Nothing)
      else (m.(takePc := TakePc.Refused), Nothing)
    case Quoted(escrow) =>
      if row.None? then (m.(takePc := TakePc.Refused), Nothing)
      else (m.(takePc := TakePc.Read(row.value, escrow)), SelectOffer(m.offerId))
    case Read(offer, escrow) => (m.(takePc := TakePc.Removed(offer, escrow)), DropOffer(m.offerId))
    case Removed(offer, escrow) =>
      (m.(takePc := TakePc.Inserted(offer, escrow)), Insert(m.offerId, TermsOf(offer, m.taker, m.bondAddress, escrow)))
    case Inserted(_, _) => (m, Nothing)
    case Refused => (m, Nothing)
  }

  predicate HoldsRequest(m: Mover, robohash: Robohash, version: nat) {
    m.Activation? && m.actPc.Read? && m.data.robohash == robohash && m.actPc.version == version
  }

  predicate HoldsOffer(m: Mover, offerId: OfferId) {
    m.Taking? && m.takePc.Read? && m.offerId == offerId
  }

  /** The tables and the history after an effect. */
  ghost function Apply(s: Market, e: Effect): Market {
    match e
    case Nothing => s
    case Draw(o) => s.(usedIds := s.usedIds + {o})
    case SelectRequest(r, v) =>
      if exists id :: id in s.movers && HoldsRequest(s.movers[id], r, v)
      then s.(requestOverlap := s.requestOverlap + {(r, v)}) else s
    case DropRequest(r) => s.(pending := s.pending - {r})
    case List(o, row) => s.(orderbook := s.orderbook[o := row], listed := s.listed[o := row])
    case SelectOffer(o) =>
      if exists id :: id in s.movers && HoldsOffer(s.movers[id], o)
      then s.(offerOverlap := s.offerOverlap + {o}) else s
    case DropOffer(o) => s.(orderbook := s.orderbook - {o})
    case Insert(o, terms) => s.(taken := s.taken[o := FreshRow(terms)])
  }

  function Pending(s: Market, robohash: Robohash): Option<MakerRequest> {
    if robohash in s.pending then Some(s.pending[robohash]) else None
  }

  function Active(s: Market, offerId: OfferId): Option<ActiveOffer> {
    if offerId in s.orderbook then Some(s.orderbook[offerId]) else None
  }

  function MoverStep(s: Market, m: Mover, env: MoveEnv): (Mover, Effect) {
    if m.Activation? then ActStep(m, Pending(s, m.data.robohash), Version(s, m.data.robohash), env)
    else TakeStep(m, Active(s, m.offerId), s.feerate, env)
  }

  // ---- the transition system ----

  ghost predicate Init(s: Market) {
    && s.pending == map[] && s.orderbook == map[] && s.taken == map[] && s.movers == map[]
    && s.usedIds == {} && s.listed == map[] && s.versions == map[] && s.requestOverlap == {} && s.offerOverlap == {}
  }

  /** process_order, after the endpoint has validated the request. */
  ghost predicate Places(s: Market, s': Market, order: OfferRequest, address: Address) {
    Accepted(order) &&
    s' == s.(pending := s.pending[order.robohash := RequestRow(order, Requirements(order, s.feerate, address))],
             versions := s.versions[order.robohash := Version(s, order.robohash) + 1])
  }

  predicate IsNew(m: Mover) {
    if m.Activation? then m.actPc.Arrived? else m.takePc.Arrived?
  }

  ghost predicate Arrives(s: Market, s': Market, id: nat, m: Mover) {
    id !in s.movers && IsNew(m) && s' == s.(movers := s.movers[id := m])
  }

  /** The id drawn for a new offer has never been drawn before. */
  ghost predicate Moves(s: Market, s': Market, id: nat, env: MoveEnv) {
    id in s.movers && env.freshId !in s.usedIds &&
    var (m, e) := MoverStep(s, s.movers[id], env);
    s' == Apply(s, e).(movers := s.movers[id := m])
  }

  /** The bond monitor removes an offer from the orderbook. */
  ghost predicate Punishes(s: Market, s': Market, o: OfferId) {
    s' == s.(orderbook := s.orderbook - {o})
  }

  /** A statement of the trade on a taken row: it keeps the terms, or deletes the row. */
  ghost predicate Trades(s: Market, s': Market, o: OfferId, row: Option<TakenOffer>) {
    o in s.taken && (row.Some? ==> row.value.terms == s.taken[o].terms) &&
    s' == s.(taken := if row.Some? then s.taken[o := row.value] else s.taken - {o})
  }

  /** A step of the environment: not a step of a move that is under way. */
  ghost predicate OtherStep(s: Market, s': Market) {
    || (exists order, address :: Places(s, s', order, address))
    || (exists id, m :: Arrives(s, s', id, m))
    || (exists o :: Punishes(s, s', o))
    || (exists o, row :: Trades(s, s', o, row))
  }

  ghost predicate Next(s: Market, s': Market) {
    OtherStep(s, s') || exists id, env :: Moves(s, s', id, env)
  }

  ghost predicate IsRun(run: seq<Market>) {
    Runs.IsRun(run, Init, Next)
  }

  ghost predicate Reachable(s: Market) {
    Runs.Reachable(s, Init, Next)
  }

  /** Some continuation of `s` ends in `s'`. */
  ghost predicate Leads(s: Market, s': Market) {
    Runs.LeadsTo(s, s', Next)
  }

  // ---- ids and tables ----

  function DrawnId(m: Mover): Option<OfferId> {
    if m.Activation? && (m.actPc.Drawn? || m.actPc.Read? || m.actPc.Removed? || m.actPc.Placed?)
    then Some(m.actPc.offerId) else None
  }

  /** An id belongs to one activation, which lists it once. */
  ghost predicate IdsOwned(s: Market) {
    && s.listed.Keys <= s.usedIds
    && (forall i :: i in s.movers && DrawnId(s.movers[i]).Some? ==>
          DrawnId(s.movers[i]).value in s.usedIds
          && (DrawnId(s.movers[i]).value in s.listed <==> s.movers[i].actPc.Placed?))
    && (forall i, j :: i in s.movers && j in s.movers && i != j ==>
          DrawnId(s.movers[i]).None? || DrawnId(s.movers[i]) != DrawnId(s.movers[j]))
  }

  /** Columns of a taken row that come from the orderbook row and the escrow made for it. */
  predicate CarriedFrom(offer: ActiveOffer, feerate: real, t: Terms) {
    && t.robohashMaker == offer.robohash && t.isBuyOrder == offer.isBuyOrder && t.amountSat == offer.amountSat
    && t.bondRatio == offer.bondRatio && t.offerDurationTs == offer.offerDurationTs
    && t.bondAddressMaker == offer.bondAddress && t.bondAmountSat == offer.bondAmountSat
    && t.bondTxHexMaker == offer.bondTxHex && t.payoutAddressMaker == offer.payoutAddress
    && t.taprootPubkeyHexMaker == offer.taprootPubkeyHex && t.musigPubNonceHexMaker == offer.musigPubNonceHex
    && t.musigPubkeyHexMaker == offer.musigPubkeyHex
    && EscrowFits(offer, feerate, t.escrow)
  }

  predicate EscrowFits(offer: ActiveOffer, feerate: real, escrow: EscrowPsbt) {
    QuoteFor(offer, feerate, escrow) == escrow
  }

  predicate AcceptedFigures(amountSat: nat, bondRatio: nat) {
    10000 <= amountSat <= 20000000 && 2 <= bondRatio <= 50
  }

  /** A pending request asks for the bond, the fee and both buffers. */
  predicate RequestGood(r: MakerRequest, feerate: real) {
    && NullOrOne(r.isBuyOrder) && AcceptedFigures(r.amountSat, r.bondRatio)
    && r.bondAmountSat == BondAmount(r.bondRatio, r.amountSat)
    && r.requiredInputSat == r.bondAmountSat + OrderFee(feerate, r.amountSat) + 10000
  }

  /** A listed offer shows the bond amount as its required input. */
  predicate OfferGood(o: ActiveOffer) {
    && NullOrOne(o.isBuyOrder) && AcceptedFigures(o.amountSat, o.bondRatio)
    && o.bondAmountSat == BondAmount(o.bondRatio, o.amountSat)
    && o.requiredInputSat == o.bondAmountSat
  }

  predicate MoverGood(s: Market, m: Mover) {
    match m
    case Activation(data, address, pc) =>
      && (pc.Read? || pc.Removed? || pc.Placed? ==> RequestGood(pc.request, s.feerate))
      && (pc.Placed? ==> pc.offerId in s.listed && s.listed[pc.offerId] == ListedRow(pc.request, data, address))
    case Taking(o, _, _, pc) =>
      && (pc.Quoted? ==> o in s.listed && EscrowFits(s.listed[o], s.feerate, pc.escrow))
      && (pc.Read? || pc.Removed? || pc.Inserted? ==>
            o in s.listed && pc.offer == s.listed[o] && EscrowFits(pc.offer, s.feerate, pc.escrow))
      && (pc.Removed? || pc.Inserted? ==> o !in s.orderbook)
  }

  ghost predicate TablesGood(s: Market) {
    && (forall r :: r in s.pending ==> RequestGood(s.pending[r], s.feerate))
    && (forall o :: o in s.listed ==> OfferGood(s.listed[o]))
    && (forall o :: o in s.orderbook ==> o in s.listed && s.orderbook[o] == s.listed[o])
    && (forall o :: o in s.taken ==>
          o in s.listed && o !in s.orderbook && CarriedFrom(s.listed[o], s.feerate, s.taken[o].terms))
  }

  /** The effects of moves on ids: an id is drawn fresh, listed by its owner, or not touched. */
  ghost predicate IdStep(m: Mover, m': Mover, e: Effect, env: MoveEnv) {
    match e
    case Draw(o) => o == env.freshId && DrawnId(m).None? && DrawnId(m') == Some(o) && !m'.actPc.Placed?
    case List(o, _) => DrawnId(m) == Some(o) && !m.actPc.Placed? && DrawnId(m') == Some(o) && m'.actPc.Placed?
    case _ => DrawnId(m').None? || (DrawnId(m') == DrawnId(m) && (m'.actPc.Placed? <==> m.actPc.Placed?))
  }

  lemma ActStepOnIds(m: Mover, row: Option<MakerRequest>, version: nat, env: MoveEnv)
    requires m.Activation?
    ensures var (m', e) := ActStep(m, row, version, env); IdStep(m, m', e, env)
  {
  }

  lemma StepOnIds(s: Market, m: Mover, env: MoveEnv)
    ensures var (m', e) := MoverStep(s, m, env); IdStep(m, m', e, env)
  {
    if m.Activation? {
      ActStepOnIds(m, Pending(s, m.data.robohash), Version(s, m.data.robohash), env);
    }
  }

  lemma IdsAfter(s: Market, s': Market, id: nat, m': Mover, e: Effect, env: MoveEnv)
    requires IdsOwned(s) && id in s.movers && env.freshId !in s.usedIds && IdStep(s.movers[id], m', e, env)
    requires s'.movers == s.movers[id := m']
    requires s'.usedIds == s.usedIds + if e.Draw? then {e.offerId} else {}
    requires s'.listed.Keys == s.listed.Keys + if e.List? then {e.offerId} else {}
    ensures IdsOwned(s')
  {
  }

  lemma ApplyOnIds(s: Market, e: Effect)
    ensures Apply(s, e).usedIds == s.usedIds + if e.Draw? then {e.offerId} else {}
    ensures Apply(s, e).listed.Keys == s.listed.Keys + if e.List? then {e.offerId} else {}
    ensures Apply(s, e).movers == s.movers
  {
  }

  lemma MovesKeepIds(s: Market, s': Market, id: nat, env: MoveEnv)
    requires IdsOwned(s) && Moves(s, s', id, env)
    ensures IdsOwned(s')
  {
    StepOnIds(s, s.movers[id], env);
    var (m, e) := MoverStep(s, s.movers[id], env);
    ApplyOnIds(s, e);
    IdsAfter(s, s', id, m, e, env);
  }

  /** What the environment leaves alone. */
  ghost predicate LeavesMovesAlone(s: Market, s': Market) {
    && s'.feerate == s.feerate && s'.usedIds == s.usedIds && s'.listed == s.listed && s'.orderbook.Keys <= s.orderbook.Keys
    && (forall id :: id in s.movers ==> id in s'.movers && s'.movers[id] == s.movers[id])
    && (forall id :: id in s'.movers && id !in s.movers ==> IsNew(s'.movers[id]))
  }

  lemma OtherStepLeavesMovesAlone(s: Market, s': Market)
    requires OtherStep(s, s')
    ensures LeavesMovesAlone(s, s')
  {
    if id, m :| Arrives(s, s', id, m) {
      assert s'.orderbook == s.orderbook;
    } else {
      OnlyArrivalsAddMovers(s, s');
    }
  }

  lemma OnlyArrivalsAddMovers(s: Market, s': Market)
    requires OtherStep(s, s') && !exists id, m :: Arrives(s, s', id, m)
    ensures s'.movers == s.movers && s'.feerate == s.feerate && s'.usedIds == s.usedIds && s'.listed == s.listed
    ensures s'.orderbook.Keys <= s.orderbook.Keys
  {
    if order, address :| Places(s, s', order, address) {
    } else if o :| Punishes(s, s', o) {
    } else {
      var o, row :| Trades(s, s', o, row);
    }
  }

  lemma OthersKeepIds(s: Market, s': Market)
    requires IdsOwned(s) && LeavesMovesAlone(s, s')
    ensures IdsOwned(s')
  {
  }

  lemma NextKeepsIds(s: Market, s': Market)
    requires IdsOwned(s) && Next(s, s')
    ensures IdsOwned(s')
  {
    if id, env :| Moves(s, s', id, env) {
      MovesKeepIds(s, s', id, env);
    } else {
      OtherStepLeavesMovesAlone(s, s');
      OthersKeepIds(s, s');
    }
  }

  /** Listed rows stay, and an id that is out of the orderbook stays out. */
  ghost predicate BookMovesOn(s: Market, s': Market) {
    && s'.feerate == s.feerate
    && forall o :: o in s.listed ==>
         o in s'.listed && s'.listed[o] == s.listed[o] && (o !in s.orderbook ==> o !in s'.orderbook)
  }

  lemma EffectMovesBookOn(s: Market, e: Effect)
    requires e.List? ==> e.offerId !in s.listed
    ensures BookMovesOn(s, Apply(s, e))
  {
  }

  lemma MovesMoveBookOn(s: Market, s': Market, id: nat, env: MoveEnv)
    requires IdsOwned(s) && Moves(s, s', id, env)
    ensures BookMovesOn(s, s')
  {
    StepOnIds(s, s.movers[id], env);
    EffectMovesBookOn(s, MoverStep(s, s.movers[id], env).1);
  }

  lemma NextMovesBookOn(s: Market, s': Market)
    requires IdsOwned(s) && Next(s, s')
    ensures BookMovesOn(s, s')
  {
    if id, env :| Moves(s, s', id, env) {
      MovesMoveBookOn(s, s', id, env);
    } else {
      OtherStepLeavesMovesAlone(s, s');
    }
  }

  lemma MoverStaysGood(s: Market, s': Market, m: Mover)
    requires MoverGood(s, m) && BookMovesOn(s, s')
    ensures MoverGood(s', m)
  {
  }

  lemma ListedRowGood(r: MakerRequest, feerate: real, data: BondSubmission, address: Address)
    requires RequestGood(r, feerate)
    ensures OfferGood(ListedRow(r, data, address))
  {
  }

  lemma TermsCarried(offer: ActiveOffer, feerate: real, taker: BondSubmission, address: Address, escrow: EscrowPsbt)
    requires OfferGood(offer) && EscrowFits(offer, feerate, escrow)
    ensures CarriedFrom(offer, feerate, TermsOf(offer, taker, address, escrow))
  {
  }

  /** What a step writes is good. */
  ghost predicate EffectGood(s: Market, e: Effect) {
    match e
    case List(o, row) => OfferGood(row) && o !in s.listed
    case Insert(o, terms) => o in s.listed && o !in s.orderbook && CarriedFrom(s.listed[o], s.feerate, terms)
    case _ => true
  }

  lemma StepEffectGood(s: Market, id: nat, env: MoveEnv)
    requires IdsOwned(s) && TablesGood(s) && id in s.movers && MoverGood(s, s.movers[id])
    ensures EffectGood(s, MoverStep(s, s.movers[id], env).1)
  {
    var m := s.movers[id];
    StepOnIds(s, m, env);
    if m.Activation? && m.actPc.Removed? {
      ListedRowGood(m.actPc.request, s.feerate, m.data, m.takerBondAddress);
    }
    if m.Taking? && m.takePc.Removed? {
      TermsCarried(m.takePc.offer, s.feerate, m.taker, m.bondAddress, m.takePc.escrow);
    }
  }

  lemma PlacedMoverGood(s: Market, m: Mover)
    requires m.Activation? && m.actPc.Removed? && MoverGood(s, m)
    ensures var row := ListedRow(m.actPc.request, m.data, m.takerBondAddress);
      MoverGood(Apply(s, List(m.actPc.offerId, row)), m.(actPc := ActPc.Placed(m.actPc.offerId, m.actPc.request, m.actPc.version)))
  {
  }

  lemma ActMoverGood(s: Market, m: Mover, row: Option<MakerRequest>, version: nat, env: MoveEnv)
    requires m.Activation? && MoverGood(s, m) && (row.Some? ==> RequestGood(row.value, s.feerate))
    ensures var (m', e) := ActStep(m, row, version, env); MoverGood(Apply(s, e), m')
  {
    if m.actPc.Removed? {
      PlacedMoverGood(s, m);
    }
  }

  lemma ReaderStaysGood(s: Market, m: Mover, env: MoveEnv)
    requires m.Taking? && (m.takePc.Read? || m.takePc.Removed? || m.takePc.Inserted?) && MoverGood(s, m)
    ensures var (m', e) := TakeStep(m, Active(s, m.offerId), s.feerate, env); MoverGood(Apply(s, e), m')
  {
  }

  lemma TakeMoverGood(s: Market, m: Mover, env: MoveEnv)
    requires m.Taking? && MoverGood(s, m)
    requires m.offerId in s.orderbook ==> m.offerId in s.listed && s.orderbook[m.offerId] == s.listed[m.offerId]
    ensures var (m', e) := TakeStep(m, Active(s, m.offerId), s.feerate, env); MoverGood(Apply(s, e), m')
  {
    if m.takePc.Read? || m.takePc.Removed? || m.takePc.Inserted? {
      ReaderStaysGood(s, m, env);
    } else {
      var e := TakeStep(m, Active(s, m.offerId), s.feerate, env).1;
      assert Apply(s, e).listed == s.listed && Apply(s, e).feerate == s.feerate;
    }
  }

  lemma StepMoverGood(s: Market, s': Market, id: nat, env: MoveEnv)
    requires TablesGood(s) && Moves(s, s', id, env) && MoverGood(s, s.movers[id])
    ensures MoverGood(s', s'.movers[id])
  {
    var m := s.movers[id];
    if m.Activation? {
      ActMoverGood(s, m, Pending(s, m.data.robohash), Version(s, m.data.robohash), env);
    } else {
      TakeMoverGood(s, m, env);
    }
    MoverLooksAtTables(Apply(s, MoverStep(s, m, env).1), s', s'.movers[id]);
  }

  lemma MoverLooksAtTables(s: Market, s': Market, m: Mover)
    requires s'.feerate == s.feerate && s'.listed == s.listed && s'.orderbook == s.orderbook
    ensures MoverGood(s, m) <==> MoverGood(s', m)
  {
  }

  lemma ListingKeepsTables(s: Market, o: OfferId, row: ActiveOffer)
    requires TablesGood(s) && EffectGood(s, List(o, row))
    ensures TablesGood(Apply(s, List(o, row)))
  {
    assert o !in s.taken;
  }

  lemma EffectKeepsTables(s: Market, e: Effect)
    requires TablesGood(s) && EffectGood(s, e)
    ensures TablesGood(Apply(s, e))
  {
    if e.List? {
      ListingKeepsTables(s, e.offerId, e.row);
    }
  }

  ghost predicate MoversGood(s: Market) {
    forall id :: id in s.movers ==> MoverGood(s, s.movers[id])
  }

  ghost predicate Sound(s: Market) {
    IdsOwned(s) && TablesGood(s) && MoversGood(s)
  }

  lemma MovesKeepTables(s: Market, s': Market, id: nat, env: MoveEnv)
    requires Sound(s) && Moves(s, s', id, env)
    ensures TablesGood(s')
  {
    StepEffectGood(s, id, env);
    EffectKeepsTables(s, MoverStep(s, s.movers[id], env).1);
  }

  lemma PlacingKeepsTables(s: Market, s': Market, order: OfferRequest, address: Address)
    requires TablesGood(s) && Places(s, s', order, address)
    ensures TablesGood(s')
  {
    assert RequestGood(RequestRow(order, Requirements(order, s.feerate, address)), s.feerate);
  }

  lemma TradingKeepsTables(s: Market, s': Market, o: OfferId, row: Option<TakenOffer>)
    requires TablesGood(s) && Trades(s, s', o, row)
    ensures TablesGood(s')
  {
  }

  lemma PunishingKeepsTables(s: Market, s': Market, o: OfferId)
    requires TablesGood(s) && Punishes(s, s', o)
    ensures TablesGood(s')
  {
  }

  lemma OthersKeepTables(s: Market, s': Market)
    requires TablesGood(s) && OtherStep(s, s')
    ensures TablesGood(s')
  {
    if order, address :| Places(s, s', order, address) {
      PlacingKeepsTables(s, s', order, address);
    } else if o :| Punishes(s, s', o) {
      PunishingKeepsTables(s, s', o);
    } else if o, row :| Trades(s, s', o, row) {
      TradingKeepsTables(s, s', o, row);
    }
  }

  lemma MovesKeepMoversGood(s: Market, s': Market, id: nat, env: MoveEnv)
    requires Sound(s) && Moves(s, s', id, env)
    ensures MoversGood(s')
  {
    MovesMoveBookOn(s, s', id, env);
    StepMoverGood(s, s', id, env);
    forall j | j in s'.movers ensures MoverGood(s', s'.movers[j]) {
      if j != id {
        MoverStaysGood(s, s', s.movers[j]);
      }
    }
  }

  lemma OthersKeepMoversGood(s: Market, s': Market)
    requires MoversGood(s) && LeavesMovesAlone(s, s')
    ensures MoversGood(s')
  {
    forall j | j in s'.movers ensures MoverGood(s', s'.movers[j]) {
      if j in s.movers {
        MoverStaysGood(s, s', s.movers[j]);
      }
    }
  }

  lemma NextKeepsMoversGood(s: Market, s': Market)
    requires Sound(s) && Next(s, s')
    ensures MoversGood(s')
  {
    if id, env :| Moves(s, s', id, env) {
      MovesKeepMoversGood(s, s', id, env);
    } else {
      OtherStepLeavesMovesAlone(s, s');
      OthersKeepMoversGood(s, s');
    }
  }

  lemma NextKeepsSound(s: Market, s': Market)
    requires Sound(s) && Next(s, s')
    ensures Sound(s')
  {
    NextKeepsIds(s, s');
    NextKeepsMoversGood(s, s');
    if id, env :| Moves(s, s', id, env) {
      MovesKeepTables(s, s', id, env);
    } else {
      OthersKeepTables(s, s');
    }
  }

  lemma ReachableSound(s: Market)
    requires Reachable(s)
    ensures Sound(s)
  {
    forall s, s' | Sound(s) && Next(s, s') ensures Sound(s') {
      NextKeepsSound(s, s');
    }
    Runs.InvariantReachable(s, Init, Next, Sound);
  }

  /** At every statement boundary of every run no offer id is in both the orderbook and the taken
      table, and every taken offer was listed before. */
  lemma NeverInBothTables(s: Market)
    requires Reachable(s)
    ensures s.orderbook.Keys !! s.taken.Keys && s.taken.Keys <= s.listed.Keys
  {
    ReachableSound(s);
  }

  lemma OfferMovesOn(run: seq<Market>, n: nat, o: OfferId)
    requires IsRun(run) && n + 1 < |run| && o in run[n].listed
    ensures o in run[n + 1].listed && run[n + 1].listed[o] == run[n].listed[o]
    ensures o !in run[n].orderbook ==> o !in run[n + 1].orderbook
  {
    Runs.RunStateReachable(run, Init, Next, n);
    ReachableSound(run[n]);
    assert Runs.StepAt(run, Next, n);
    NextMovesBookOn(run[n], run[n + 1]);
  }

  /** In every run an id that has left the orderbook never returns to it, and what was listed under
      it never changes. */
  lemma {:induction false} NeverBackInOrderbook(run: seq<Market>, i: nat, j: nat, o: OfferId)
    requires IsRun(run) && i <= j < |run| && o in run[i].listed
    ensures o in run[j].listed && run[j].listed[o] == run[i].listed[o]
    ensures o !in run[i].orderbook ==> o !in run[j].orderbook
  {
    if i < j {
      NeverBackInOrderbook(run, i, j - 1, o);
      OfferMovesOn(run, j - 1, o);
    }
  }

  /** The columns of a taken offer, carried through both moves: each comes unchanged from the listed
      row, the listed row's figures are those of an accepted request, and only the required input
      was overwritten, with the bond amount. */
  lemma ColumnsCarried(s: Market, o: OfferId)
    requires Reachable(s) && o in s.taken
    ensures o in s.listed && CarriedFrom(s.listed[o], s.feerate, s.taken[o].terms) && OfferGood(s.listed[o])
  {
    ReachableSound(s);
  }

  /** A listed row against the pending request it was made from: only the required input differs,
      by the service fee and both buffers. */
  lemma ListingOverwritesRequiredInput(s: Market, id: nat)
    requires Reachable(s) && id in s.movers && s.movers[id].Activation? && s.movers[id].actPc.Placed?
    ensures var r := s.movers[id].actPc.request;
      var o := s.movers[id].actPc.offerId;
      && o in s.listed
      && s.listed[o].isBuyOrder == r.isBuyOrder && s.listed[o].amountSat == r.amountSat
      && s.listed[o].bondRatio == r.bondRatio && s.listed[o].offerDurationTs == r.offerDurationTs
      && s.listed[o].bondAddress == r.bondAddress && s.listed[o].bondAmountSat == r.bondAmountSat
      && s.listed[o].requiredInputSat == r.requiredInputSat - OrderFee(s.feerate, r.amountSat) - 10000
  {
    ReachableSound(s);
    assert MoverGood(s, s.movers[id]);
  }

  /** What a payout leaves each trader with, measured against its stake. */
  predicate Settles(t: Terms, txFee: nat) {
    var stakes := Stakes(t.escrow.amountMakerSat, t.escrow.amountTakerSat);
    var out := PayoutOutputs(PayoutAmounts(t.isBuyOrder, stakes), txFee);
    && out.Some?
    && out.value.makerSat - stakes.makerSat == t.amountSat - txFee / 2
    && out.value.takerSat - stakes.takerSat == -(t.amountSat as int) - txFee / 2
  }

  /** The maker buys the amount from the taker exactly when the offer is a buy order and the bond
      covers half the fee. */
  lemma TakenOfferSettlesIff(s: Market, o: OfferId, txFee: nat)
    requires Reachable(s) && o in s.taken
    ensures var t := s.taken[o].terms;
      Settles(t, txFee) <==> t.isBuyOrder == Some(1) && t.bondAmountSat >= txFee / 2
  {
    ReachableSound(s);
    assert CarriedFrom(s.listed[o], s.feerate, s.taken[o].terms);
  }

  /** The orderbook query never shows a sell offer, and every trade it leads to settles as soon as
      the bond covers half the payout fee. */
  lemma ShownOffersSettle(s: Market, o: OfferId, buyOffers: bool, minSat: int, maxSat: int, txFee: nat)
    requires Reachable(s) && o in s.listed
    ensures Database.Suits(s.listed[o], buyOffers, minSat, maxSat) <==>
      buyOffers && s.listed[o].isBuyOrder == Some(1) && minSat <= s.listed[o].amountSat <= maxSat
    ensures o in s.taken && Database.Suits(s.listed[o], buyOffers, minSat, maxSat) ==>
      (Settles(s.taken[o].terms, txFee) <==> s.listed[o].bondAmountSat >= txFee / 2)
  {
    ReachableSound(s);
    if o in s.taken {
      TakenOfferSettlesIff(s, o, txFee);
    }
  }

  // ---- how often a row is moved ----

  /** This taking has read the orderbook row and is bound to insert it, or has. */
  predicate TookOffer(m: Mover, o: OfferId) {
    m.Taking? && m.offerId == o && (m.takePc.Read? || m.takePc.Removed? || m.takePc.Inserted?)
  }

  /** This activation has read that request and is bound to list it, or has. */
  predicate TookRequest(m: Mover, robohash: Robohash, version: nat) {
    m.Activation? && m.data.robohash == robohash && (m.actPc.Read? || m.actPc.Removed? || m.actPc.Placed?)
    && m.actPc.version == version
  }

  ghost predicate OffersCounted(s: Market) {
    && (forall id, o :: id in s.movers && TookOffer(s.movers[id], o) ==> o in s.listed)
    && (forall id, o :: id in s.movers && TookOffer(s.movers[id], o) && !HoldsOffer(s.movers[id], o) ==> o !in s.orderbook)
    && (forall i, j, o :: i in s.movers && j in s.movers && i != j && TookOffer(s.movers[i], o) && TookOffer(s.movers[j], o) ==>
          o in s.offerOverlap)
    && (forall o :: o in s.offerOverlap ==> TookTwice(s, o))
  }

  ghost predicate TookTwice(s: Market, o: OfferId) {
    exists i, j :: TookBoth(s, i, j, o)
  }

  ghost predicate TookBoth(s: Market, i: nat, j: nat, o: OfferId) {
    i in s.movers && j in s.movers && i != j && TookOffer(s.movers[i], o) && TookOffer(s.movers[j], o)
  }

  /** What one step means for the takers of an offer. */
  ghost predicate OfferStep(s: Market, m: Mover, m': Mover, e: Effect) {
    && (forall o :: TookOffer(m, o) ==> TookOffer(m', o) && (e.DropOffer? || (HoldsOffer(m', o) <==> HoldsOffer(m, o))))
    && (forall o :: TookOffer(m', o) && !TookOffer(m, o) ==> e == SelectOffer(o) && o in s.orderbook && HoldsOffer(m', o))
    && (e.SelectOffer? ==> TookOffer(m', e.offerId) && !TookOffer(m, e.offerId))
    && (e.DropOffer? ==> forall o :: TookOffer(m, o) ==> o == e.offerId)
  }

  lemma TakeIsOfferStep(s: Market, m: Mover, env: MoveEnv)
    requires m.Taking?
    ensures var (m', e) := TakeStep(m, Active(s, m.offerId), s.feerate, env); OfferStep(s, m, m', e)
  {
  }

  lemma StepIsOfferStep(s: Market, m: Mover, env: MoveEnv)
    ensures var (m', e) := MoverStep(s, m, env); OfferStep(s, m, m', e)
  {
    if m.Taking? {
      TakeIsOfferStep(s, m, env);
    }
  }

  lemma TookTwiceLasts(s: Market, s': Market, o: OfferId)
    requires TookTwice(s, o)
    requires forall id :: id in s.movers && TookOffer(s.movers[id], o) ==> id in s'.movers && TookOffer(s'.movers[id], o)
    ensures TookTwice(s', o)
  {
    var i, j :| TookBoth(s, i, j, o);
    assert TookBoth(s', i, j, o);
  }

  /** What one step of a mover does to the readers of an offer. */
  ghost predicate StepsTo(s: Market, s': Market, id: nat, m': Mover, e: Effect) {
    && id in s.movers && OfferStep(s, s.movers[id], m', e) && s'.movers == s.movers[id := m']
    && s'.offerOverlap == s.offerOverlap +
       if e.SelectOffer? && (exists k :: k in s.movers && HoldsOffer(s.movers[k], e.offerId)) then {e.offerId} else {}
  }

  /** Two readers after a step: the second one, at its SELECT, met the first one before its DELETE. */
  lemma SecondReaderOverlaps(s: Market, s': Market, id: nat, m': Mover, e: Effect, i: nat, j: nat, o: OfferId)
    requires OffersCounted(s) && StepsTo(s, s', id, m', e) && TookBoth(s', i, j, o)
    ensures o in s'.offerOverlap
  {
    if !(TookOffer(s.movers[i], o) && TookOffer(s.movers[j], o)) {
      var k := if i == id then j else i;
      assert TookOffer(s.movers[k], o) && o in s.orderbook;
      assert HoldsOffer(s.movers[k], o);
    }
  }

  lemma OverlapHasReaders(s: Market, s': Market, id: nat, m': Mover, e: Effect, o: OfferId)
    requires OffersCounted(s) && StepsTo(s, s', id, m', e) && o in s'.offerOverlap
    ensures TookTwice(s', o)
  {
    if o in s.offerOverlap {
      TookTwiceLasts(s, s', o);
    } else {
      var k :| k in s.movers && HoldsOffer(s.movers[k], o);
      assert TookBoth(s', k, id, o);
    }
  }

  /** Offers after one step of a mover, from what the step is. */
  lemma OffersCountedAfter(s: Market, s': Market, id: nat, m': Mover, e: Effect)
    requires OffersCounted(s) && TablesGood(s) && BookMovesOn(s, s') && StepsTo(s, s', id, m', e)
    requires e.DropOffer? ==> e.offerId !in s'.orderbook
    ensures OffersCounted(s')
  {
    forall i, j, o | i in s'.movers && j in s'.movers && i != j && TookOffer(s'.movers[i], o) && TookOffer(s'.movers[j], o)
      ensures o in s'.offerOverlap
    {
      assert TookBoth(s', i, j, o);
      SecondReaderOverlaps(s, s', id, m', e, i, j, o);
    }
    forall o | o in s'.offerOverlap ensures TookTwice(s', o) {
      OverlapHasReaders(s, s', id, m', e, o);
    }
  }

  lemma ApplyOnOverlap(s: Market, e: Effect)
    ensures Apply(s, e).offerOverlap == s.offerOverlap +
      if e.SelectOffer? && (exists k :: k in s.movers && HoldsOffer(s.movers[k], e.offerId)) then {e.offerId} else {}
    ensures e.DropOffer? ==> e.offerId !in Apply(s, e).orderbook
  {
  }

  lemma MovesKeepOffersCounted(s: Market, s': Market, id: nat, env: MoveEnv)
    requires OffersCounted(s) && Sound(s) && Moves(s, s', id, env)
    ensures OffersCounted(s')
  {
    MovesMoveBookOn(s, s', id, env);
    StepIsOfferStep(s, s.movers[id], env);
    var (m, e) := MoverStep(s, s.movers[id], env);
    ApplyOnOverlap(s, e);
    OffersCountedAfter(s, s', id, m, e);
  }

  lemma OthersKeepOffersCounted(s: Market, s': Market)
    requires OffersCounted(s) && LeavesMovesAlone(s, s') && s'.offerOverlap == s.offerOverlap
    ensures OffersCounted(s')
  {
    forall o | o in s'.offerOverlap ensures TookTwice(s', o) {
      TookTwiceLasts(s, s', o);
    }
  }

  lemma TradesKeepOverlap(s: Market, s': Market, o: OfferId, row: Option<TakenOffer>)
    requires Trades(s, s', o, row)
    ensures s'.offerOverlap == s.offerOverlap && s'.requestOverlap == s.requestOverlap
  {
  }

  lemma OthersKeepOverlap(s: Market, s': Market)
    requires OtherStep(s, s')
    ensures s'.offerOverlap == s.offerOverlap && s'.requestOverlap == s.requestOverlap
  {
    if o, row :| Trades(s, s', o, row) {
      TradesKeepOverlap(s, s', o, row);
    } else if order, address :| Places(s, s', order, address) {
    } else if id, m :| Arrives(s, s', id, m) {
    } else {
      var o :| Punishes(s, s', o);
    }
  }

  ghost predicate SoundAndCounted(s: Market) {
    Sound(s) && OffersCounted(s)
  }

  lemma NextKeepsCounted(s: Market, s': Market)
    requires SoundAndCounted(s) && Next(s, s')
    ensures SoundAndCounted(s')
  {
    NextKeepsSound(s, s');
    if id, env :| Moves(s, s', id, env) {
      MovesKeepOffersCounted(s, s', id, env);
    } else {
      OtherStepLeavesMovesAlone(s, s');
      OthersKeepOverlap(s, s');
      OthersKeepOffersCounted(s, s');
    }
  }

  lemma ReachableCounted(s: Market)
    requires Reachable(s)
    ensures SoundAndCounted(s)
  {
    forall s, s' | SoundAndCounted(s) && Next(s, s') ensures SoundAndCounted(s') {
      NextKeepsCounted(s, s');
    }
    Runs.InvariantReachable(s, Init, Next, SoundAndCounted);
  }

  /** An offer is taken by two takers exactly when one of them read its row while the other stood
      between its own SELECT and DELETE. */
  lemma TakenTwiceIffOverlap(s: Market, o: OfferId)
    requires Reachable(s)
    ensures (exists i, j :: TookBoth(s, i, j, o)) <==> o in s.offerOverlap
  {
    ReachableCounted(s);
  }

  // ---- the same for the requests of one maker ----

  ghost predicate TookBothRequests(s: Market, i: nat, j: nat, r: Robohash, v: nat) {
    i in s.movers && j in s.movers && i != j && TookRequest(s.movers[i], r, v) && TookRequest(s.movers[j], r, v)
  }

  ghost predicate RequestTookTwice(s: Market, r: Robohash, v: nat) {
    exists i, j :: TookBothRequests(s, i, j, r, v)
  }

  ghost predicate StillPending(s: Market, r: Robohash, v: nat) {
    r in s.pending && Version(s, r) == v
  }

  ghost predicate RequestsCounted(s: Market) {
    && (forall id, r, v: nat :: id in s.movers && TookRequest(s.movers[id], r, v) ==> v <= Version(s, r))
    && (forall id, r, v: nat :: id in s.movers && TookRequest(s.movers[id], r, v) && !HoldsRequest(s.movers[id], r, v) ==>
          !StillPending(s, r, v))
    && (forall i, j, r, v: nat :: TookBothRequests(s, i, j, r, v) ==> (r, v) in s.requestOverlap)
    && (forall r, v: nat :: (r, v) in s.requestOverlap ==> RequestTookTwice(s, r, v))
  }

  /** A maker's request that is gone does not come back: a new one has a new version. */
  ghost predicate RequestsMoveOn(s: Market, s': Market) {
    && (forall r :: Version(s, r) <= Version(s', r))
    && (forall r, v: nat :: v <= Version(s, r) && StillPending(s', r, v) ==> StillPending(s, r, v))
  }

  ghost predicate RequestStep(s: Market, m: Mover, m': Mover, e: Effect) {
    && (forall r, v: nat :: TookRequest(m, r, v) ==>
          TookRequest(m', r, v) && (e.DropRequest? || (HoldsRequest(m', r, v) <==> HoldsRequest(m, r, v))))
    && (forall r, v: nat :: TookRequest(m', r, v) && !TookRequest(m, r, v) ==>
          e == SelectRequest(r, v) && StillPending(s, r, v) && HoldsRequest(m', r, v))
    && (e.SelectRequest? ==> TookRequest(m', e.robohash, e.version) && !TookRequest(m, e.robohash, e.version))
    && (e.DropRequest? ==> forall r, v: nat :: TookRequest(m, r, v) ==> r == e.robohash)
  }

  lemma ActIsRequestStep(s: Market, m: Mover, env: MoveEnv)
    requires m.Activation?
    ensures var (m', e) := ActStep(m, Pending(s, m.data.robohash), Version(s, m.data.robohash), env); RequestStep(s, m, m', e)
  {
  }

  lemma StepIsRequestStep(s: Market, m: Mover, env: MoveEnv)
    ensures var (m', e) := MoverStep(s, m, env); RequestStep(s, m, m', e)
  {
    if m.Activation? {
      ActIsRequestStep(s, m, env);
    }
  }

  lemma RequestTookTwiceLasts(s: Market, s': Market, r: Robohash, v: nat)
    requires RequestTookTwice(s, r, v)
    requires forall id :: id in s.movers && TookRequest(s.movers[id], r, v) ==> id in s'.movers && TookRequest(s'.movers[id], r, v)
    ensures RequestTookTwice(s', r, v)
  {
    var i, j :| TookBothRequests(s, i, j, r, v);
    assert TookBothRequests(s', i, j, r, v);
  }

  lemma RequestsCountedAfter(s: Market, s': Market, id: nat, m': Mover, e: Effect)
    requires RequestsCounted(s) && RequestsMoveOn(s, s') && id in s.movers
    requires RequestStep(s, s.movers[id], m', e)
    requires s'.movers == s.movers[id := m']
    requires e.DropRequest? ==> e.robohash !in s'.pending
    requires s'.requestOverlap == s.requestOverlap +
      if e.SelectRequest? && (exists k :: k in s.movers && HoldsRequest(s.movers[k], e.robohash, e.version))
      then {(e.robohash, e.version)} else {}
    ensures RequestsCounted(s')
  {
    forall i, j, r, v: nat | TookBothRequests(s', i, j, r, v) ensures (r, v) in s'.requestOverlap {
      if TookBothRequests(s, i, j, r, v) {
        assert (r, v) in s.requestOverlap;
      } else {
        var k := if i == id then j else i;
        assert TookRequest(s.movers[k], r, v) && StillPending(s, r, v);
        assert HoldsRequest(s.movers[k], r, v);
      }
    }
    forall r, v: nat | (r, v) in s'.requestOverlap ensures RequestTookTwice(s', r, v) {
      if (r, v) in s.requestOverlap {
        RequestTookTwiceLasts(s, s', r, v);
      } else {
        var k :| k in s.movers && HoldsRequest(s.movers[k], r, v);
        assert TookBothRequests(s', k, id, r, v);
      }
    }
  }

  lemma ApplyOnRequests(s: Market, e: Effect)
    ensures Apply(s, e).requestOverlap == s.requestOverlap +
      if e.SelectRequest? && (exists k :: k in s.movers && HoldsRequest(s.movers[k], e.robohash, e.version))
      then {(e.robohash, e.version)} else {}
    ensures e.DropRequest? ==> e.robohash !in Apply(s, e).pending
    ensures Apply(s, e).versions == s.versions && Apply(s, e).pending.Keys <= s.pending.Keys
  {
  }

  lemma MovesKeepRequestsCounted(s: Market, s': Market, id: nat, env: MoveEnv)
    requires RequestsCounted(s) && Moves(s, s', id, env)
    ensures RequestsCounted(s')
  {
    StepIsRequestStep(s, s.movers[id], env);
    var (m, e) := MoverStep(s, s.movers[id], env);
    ApplyOnRequests(s, e);
    RequestsCountedAfter(s, s', id, m, e);
  }

  lemma OthersMoveRequestsOn(s: Market, s': Market)
    requires OtherStep(s, s')
    ensures RequestsMoveOn(s, s')
  {
    if order, address :| Places(s, s', order, address) {
      assert forall r :: Version(s', r) == if r == order.robohash then Version(s, r) + 1 else Version(s, r);
    } else {
      OthersKeepPending(s, s');
    }
  }

  lemma OthersKeepPending(s: Market, s': Market)
    requires OtherStep(s, s') && !exists order, address :: Places(s, s', order, address)
    ensures s'.pending == s.pending && s'.versions == s.versions
  {
    if id, m :| Arrives(s, s', id, m) {
    } else if o :| Punishes(s, s', o) {
    } else {
      var o, row :| Trades(s, s', o, row);
    }
  }

  lemma OthersKeepRequestsCounted(s: Market, s': Market)
    requires RequestsCounted(s) && LeavesMovesAlone(s, s') && RequestsMoveOn(s, s') && s'.requestOverlap == s.requestOverlap
    ensures RequestsCounted(s')
  {
    forall i, j, r, v: nat | TookBothRequests(s', i, j, r, v) ensures (r, v) in s'.requestOverlap {
      assert TookBothRequests(s, i, j, r, v);
    }
    forall r, v: nat | (r, v) in s'.requestOverlap ensures RequestTookTwice(s', r, v) {
      RequestTookTwiceLasts(s, s', r, v);
    }
  }

  lemma NextKeepsRequestsCounted(s: Market, s': Market)
    requires RequestsCounted(s) && Next(s, s')
    ensures RequestsCounted(s')
  {
    if id, env :| Moves(s, s', id, env) {
      MovesKeepRequestsCounted(s, s', id, env);
    } else {
      OtherStepLeavesMovesAlone(s, s');
      OthersKeepOverlap(s, s');
      OthersMoveRequestsOn(s, s');
      OthersKeepRequestsCounted(s, s');
    }
  }

  /** A pending request is activated by two submissions exactly when one of them read it while the
      other stood between its own SELECT and DELETE. */
  lemma ActivatedTwiceIffOverlap(s: Market, r: Robohash, v: nat)
    requires Reachable(s)
    ensures (exists i, j :: TookBothRequests(s, i, j, r, v)) <==> (r, v) in s.requestOverlap
  {
    forall s, s' | RequestsCounted(s) && Next(s, s') ensures RequestsCounted(s') {
      NextKeepsRequestsCounted(s, s');
    }
    Runs.InvariantReachable(s, Init, Next, RequestsCounted);
  }
}
