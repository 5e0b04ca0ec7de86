/** The two pairs of write-then-read-both columns, signed escrow PSBTs and partial signatures:
    what is in them, when they are written once, and that no hand-off is lost. */
module TradeSlots {
  import opened Types
  import opened Statements
  import opened Trade
  import Runs
  import opened TradeCausality

  datatype Kind = SignedPsbts | PartialSigs

  function Slot(row: TakenOffer, kind: Kind, isMaker: bool): Option<Hex> {
    if kind.SignedPsbts? then SignedPsbt(row, isMaker) else PartialSig(row, isMaker)
  }

  /** How far a submission is with its slot. */
  datatype Phase =
    | NotYet
    | MayWrite(isMaker: bool)   // saw its slot empty
    | Wrote(isMaker: bool)
    | SawOne(isMaker: bool)     // read both slots, one was empty
    | SawBoth(isMaker: bool)    // read both slots, both were filled
    | Missed(isMaker: bool)     // found the row gone when it read

  predicate Submits(t: Task, kind: Kind) {
    if kind.SignedPsbts? then t.PsbtTask? else t.SigTask?
  }

  function Value(t: Task, kind: Kind): Hex
    requires Submits(t, kind)
  {
    if kind.SignedPsbts? then t.psbt else t.sig
  }

  function PhaseOf(t: Task): Phase {
    match t
    case PsbtTask(_, _, pc) =>
      (match pc
       case Vacant(b) => MayWrite(b)
       case Written(b) => Wrote(b)
       case Awaiting(b) => SawOne(b)
       case Pair(b, _, _) => SawBoth(b)
       case Sent(b, _, _) => SawBoth(b)
       case SendFailed(b, _, _) => SawBoth(b)
       case RowGone(b) => Missed(b)
       case _ => NotYet)
    case SigTask(_, _, pc) =>
      (match pc
       case Vacant(b) => MayWrite(b)
       case Written(b) => Wrote(b)
       case Awaiting(b) => SawOne(b)
       case NoPayout(b) => SawBoth(b)
       case Undecodable(b) => SawBoth(b)
       case Context(b, _) => SawBoth(b)
       case Broadcasted(b, _) => SawBoth(b)
       case SendFailed(b, _) => SawBoth(b)
       case PaidOut(b, _) => SawBoth(b)
       case RowGone(b) => Missed(b)
       case _ => NotYet)
    case _ => NotYet
  }

  /** The role a submission was found to have. */
  function RoleFound(t: Task): Option<bool> {
    if t.PsbtTask? && t.psbtPc.Role? then Some(t.psbtPc.isMaker)
    else if t.SigTask? && t.sigPc.Role? then Some(t.sigPc.isMaker)
    else if PhaseOf(t).NotYet? then None
    else Some(PhaseOf(t).isMaker)
  }

  /** The maker's and the taker's value a submission goes on to broadcast. */
  function PairRead(t: Task): Option<(Hex, Hex)> {
    match t
    case PsbtTask(_, _, pc) =>
      if pc.Pair? || pc.Sent? || pc.SendFailed? then Some((pc.makerPsbt, pc.takerPsbt)) else None
    case SigTask(_, _, pc) =>
      if pc.Context? || pc.Broadcasted? || pc.SendFailed? || pc.PaidOut?
      then Some((pc.keyspend.makerSig, pc.keyspend.takerSig)) else None
    case _ => None
  }

  predicate IsSubmission(t: Task) {
    t.PsbtTask? || t.SigTask?
  }

  function KindOf(t: Task): Kind {
    if t.PsbtTask? then SignedPsbts else PartialSigs
  }

  predicate HalfRead(row: TakenOffer, kind: Kind) {
    Slot(row, kind, true).None? || Slot(row, kind, false).None?
  }

  /** A step writes at most the slot its own submission saw empty. */
  ghost predicate WritesOwnSlot(row: Option<TakenOffer>, t: Task, r: Step) {
    r.row.Some? ==>
      && row.Some? && r.row.value.terms == row.value.terms
      && forall kind, b ::
           Slot(r.row.value, kind, b) ==
           if Submits(t, kind) && PhaseOf(t) == MayWrite(b) then Some(Value(t, kind)) else Slot(row.value, kind, b)
  }

  /** A step never changes who submits what, and finds out the role from the row. */
  ghost predicate KeepsSubmission(row: Option<TakenOffer>, t: Task, task': Task) {
    && (forall kind :: Submits(t, kind) <==> Submits(task', kind))
    && (forall kind :: Submits(t, kind) ==> Value(task', kind) == Value(t, kind) && task'.who == t.who)
    && (IsSubmission(t) && RoleFound(task').Some? ==>
          RoleFound(task') == RoleFound(t) || (row.Some? && RoleFound(task') == RoleOf(row.value, t.who)))
  }

  /** How a step moves a submission from phase to phase. */
  ghost predicate MovesPhase(row: Option<TakenOffer>, t: Task, task': Task) {
    match PhaseOf(task')
    case NotYet => PhaseOf(t).NotYet?
    case MayWrite(b) => row.Some? && PhaseOf(t).NotYet? && Slot(row.value, KindOf(t), b).None?
    case Wrote(b) => PhaseOf(t) == MayWrite(b)
    case SawOne(b) => PhaseOf(t) == Wrote(b) && row.Some? && HalfRead(row.value, KindOf(t))
    case SawBoth(b) =>
      PhaseOf(t) == SawBoth(b) || (PhaseOf(t) == Wrote(b) && row.Some? && !HalfRead(row.value, KindOf(t)))
    case Missed(b) => PhaseOf(t) == Wrote(b) && row.None?
  }

  /** Where a pair that is read comes from. */
  ghost predicate ReadsPair(row: Option<TakenOffer>, t: Task, task': Task) {
    PairRead(task').Some? ==>
      || PairRead(task') == PairRead(t)
      || (row.Some? && !HalfRead(row.value, KindOf(t))
          && PairRead(task').value == (Slot(row.value, KindOf(t), true).value, Slot(row.value, KindOf(t), false).value))
  }

  lemma StepWritesOwnSlot(row: Option<TakenOffer>, t: Task, env: Env)
    requires !IsFinished(t)
    ensures WritesOwnSlot(row, t, TaskStep(row, t, env))
  {
  }

  lemma PsbtKeepsSubmission(row: Option<TakenOffer>, t: Task, env: Env)
    requires !IsFinished(t) && t.PsbtTask?
    ensures KeepsSubmission(row, t, StepPsbt(row, t, env).task)
  {
  }

  lemma SigKeepsSubmission(row: Option<TakenOffer>, t: Task, env: Env)
    requires !IsFinished(t) && t.SigTask?
    ensures KeepsSubmission(row, t, StepSig(row, t, env).task)
  {
  }

  lemma StepKeepsSubmission(row: Option<TakenOffer>, t: Task, env: Env)
    requires !IsFinished(t)
    ensures KeepsSubmission(row, t, TaskStep(row, t, env).task)
  {
    if t.PsbtTask? {
      PsbtKeepsSubmission(row, t, env);
    } else if t.SigTask? {
      SigKeepsSubmission(row, t, env);
    } else {
      assert !IsSubmission(TaskStep(row, t, env).task);
    }
  }

  lemma PsbtMovesPhase(row: Option<TakenOffer>, t: Task, env: Env)
    requires !IsFinished(t) && t.PsbtTask?
    ensures MovesPhase(row, t, StepPsbt(row, t, env).task)
  {
  }

  lemma SigMovesPhase(row: Option<TakenOffer>, t: Task, env: Env)
    requires !IsFinished(t) && t.SigTask?
    ensures MovesPhase(row, t, StepSig(row, t, env).task)
  {
  }

  lemma StepMovesPhase(row: Option<TakenOffer>, t: Task, env: Env)
    requires !IsFinished(t)
    ensures MovesPhase(row, t, TaskStep(row, t, env).task)
  {
    if t.PsbtTask? {
      PsbtMovesPhase(row, t, env);
    } else if t.SigTask? {
      SigMovesPhase(row, t, env);
    } else {
      assert !IsSubmission(TaskStep(row, t, env).task);
    }
  }

  lemma StepReadsPair(row: Option<TakenOffer>, t: Task, env: Env)
    requires !IsFinished(t)
    ensures ReadsPair(row, t, TaskStep(row, t, env).task)
  {
  }

  // ---- what the slots hold ----

  /** A trader handed in this value. */
  ghost predicate HandedIn(s: Trade, kind: Kind, isMaker: bool, v: Hex) {
    exists id :: id in s.tasks && Submits(s.tasks[id], kind) && Value(s.tasks[id], kind) == v
      && s.tasks[id].who == TraderId(s.terms, isMaker)
  }

  ghost predicate RolesTrue(s: Trade) {
    && (s.row.Some? ==> s.row.value.terms == s.terms)
    && forall id :: id in s.tasks && (s.tasks[id].PsbtTask? || s.tasks[id].SigTask?) && RoleFound(s.tasks[id]).Some? ==>
         s.tasks[id].who == TraderId(s.terms, RoleFound(s.tasks[id]).value)
  }

  ghost predicate SlotsTraced(s: Trade) {
    && (s.row.Some? ==> forall kind, b :: Slot(s.row.value, kind, b).Some? ==>
          HandedIn(s, kind, b, Slot(s.row.value, kind, b).value))
    && forall id, kind :: id in s.tasks && Submits(s.tasks[id], kind) && PairRead(s.tasks[id]).Some? ==>
         && HandedIn(s, kind, true, PairRead(s.tasks[id]).value.0)
         && HandedIn(s, kind, false, PairRead(s.tasks[id]).value.1)
  }

  predicate HasWritten(t: Task) {
    PhaseOf(t).Wrote? || PhaseOf(t).SawOne?
  }

  ghost predicate WritersFilled(s: Trade) {
    forall id :: id in s.tasks && s.row.Some? && HasWritten(s.tasks[id]) ==>
      Slot(s.row.value, KindOf(s.tasks[id]), PhaseOf(s.tasks[id]).isMaker).Some?
  }

  /** Who wrote finds its value there; nobody reads half a pair after the other side finished
      reading half a pair; who finds the row gone is right. */
  ghost predicate HandOff(s: Trade) {
    && WritersFilled(s)
    && (forall i, j :: i in s.tasks && j in s.tasks && KindOf(s.tasks[i]) == KindOf(s.tasks[j]) ==>
          !(PhaseOf(s.tasks[i]) == SawOne(true) && PhaseOf(s.tasks[j]) == SawOne(false)))
    && (forall id :: id in s.tasks && PhaseOf(s.tasks[id]).Missed? ==> s.row.None?)
  }

  lemma RolesTrueAfter(s: Trade, s': Trade, id: nat)
    requires RolesTrue(s) && id in s.tasks && id in s'.tasks && s'.tasks == s.tasks[id := s'.tasks[id]]
    requires KeepsSubmission(s.row, s.tasks[id], s'.tasks[id]) && s'.terms == s.terms
    requires s'.row.Some? ==> s.row.Some? && s'.row.value.terms == s.row.value.terms
    ensures RolesTrue(s')
  {
    var t, t' := s.tasks[id], s'.tasks[id];
    assert forall kind :: Submits(t, kind) ==> t'.who == t.who;
    if IsSubmission(t') && RoleFound(t').Some? {
      assert Submits(t', KindOf(t')) && Submits(t, KindOf(t'));
      assert t'.who == TraderId(s.terms, RoleFound(t').value);
    }
  }

  lemma StepKeepsRolesTrue(s: Trade, s': Trade, id: nat, env: Env)
    requires RolesTrue(s) && Steps(s, s', id, env)
    ensures RolesTrue(s')
  {
    StepWritesOwnSlot(s.row, s.tasks[id], env);
    StepKeepsSubmission(s.row, s.tasks[id], env);
    RolesTrueAfter(s, s', id);
  }

  lemma NextKeepsRolesTrue(s: Trade, s': Trade)
    requires RolesTrue(s) && Next(s, s')
    ensures RolesTrue(s')
  {
    if id, env :| Steps(s, s', id, env) {
      StepKeepsRolesTrue(s, s', id, env);
    }
  }

  lemma HandedInLasts(s: Trade, s': Trade, id: nat)
    requires s'.terms == s.terms && id in s'.tasks && s'.tasks == s.tasks[id := s'.tasks[id]]
    requires id in s.tasks ==> forall kind :: Submits(s.tasks[id], kind) ==>
      Submits(s'.tasks[id], kind) && Value(s'.tasks[id], kind) == Value(s.tasks[id], kind) && s'.tasks[id].who == s.tasks[id].who
    ensures forall kind, b, v :: HandedIn(s, kind, b, v) ==> HandedIn(s', kind, b, v)
  {
    forall kind, b, v | HandedIn(s, kind, b, v) ensures HandedIn(s', kind, b, v) {
      var j :| j in s.tasks && Submits(s.tasks[j], kind) && Value(s.tasks[j], kind) == v
        && s.tasks[j].who == TraderId(s.terms, b);
      assert j in s'.tasks && Submits(s'.tasks[j], kind);
    }
  }

  ghost predicate SlotsGood(s: Trade) {
    RolesTrue(s) && SlotsTraced(s) && HandOff(s)
  }

  /** What a step says about the slots and the phase of its submission. */
  ghost predicate MovesOn(s: Trade, s': Trade, id: nat) {
    && id in s.tasks && id in s'.tasks && s'.tasks == s.tasks[id := s'.tasks[id]] && (s'.row.Some? ==> s.row.Some?)
    && KindOf(s'.tasks[id]) == KindOf(s.tasks[id]) && MovesPhase(s.row, s.tasks[id], s'.tasks[id])
    && (s'.row.Some? ==> forall kind, b ::
          Slot(s'.row.value, kind, b) ==
          if Submits(s.tasks[id], kind) && PhaseOf(s.tasks[id]) == MayWrite(b) then Some(Value(s.tasks[id], kind))
          else Slot(s.row.value, kind, b))
  }

  lemma StepMovesOn(s: Trade, s': Trade, id: nat, env: Env)
    requires Steps(s, s', id, env)
    ensures MovesOn(s, s', id)
  {
    StepWritesOwnSlot(s.row, s.tasks[id], env);
    StepMovesPhase(s.row, s.tasks[id], env);
    StepKeepsSubmission(s.row, s.tasks[id], env);
    assert Submits(s.tasks[id], SignedPsbts) <==> Submits(s'.tasks[id], SignedPsbts);
  }

  lemma PairStaysTraced(s: Trade, s': Trade, id: nat, i: nat, kind: Kind)
    requires SlotsTraced(s) && id in s.tasks && id in s'.tasks && s'.tasks == s.tasks[id := s'.tasks[id]]
    requires KeepsSubmission(s.row, s.tasks[id], s'.tasks[id]) && ReadsPair(s.row, s.tasks[id], s'.tasks[id])
    requires i in s'.tasks && Submits(s'.tasks[i], kind) && PairRead(s'.tasks[i]).Some?
    ensures HandedIn(s, kind, true, PairRead(s'.tasks[i]).value.0)
    ensures HandedIn(s, kind, false, PairRead(s'.tasks[i]).value.1)
  {
    assert Submits(s.tasks[i], kind) && KindOf(s.tasks[i]) == kind;
  }

  /** Slots and pairs after a step, from what the step is. */
  lemma SlotsTracedAfter(s: Trade, s': Trade, id: nat)
    requires RolesTrue(s) && SlotsTraced(s) && MovesOn(s, s', id) && s'.terms == s.terms
    requires KeepsSubmission(s.row, s.tasks[id], s'.tasks[id]) && ReadsPair(s.row, s.tasks[id], s'.tasks[id])
    ensures SlotsTraced(s')
  {
    var t := s.tasks[id];
    HandedInLasts(s, s', id);
    forall i, kind | i in s'.tasks && Submits(s'.tasks[i], kind) && PairRead(s'.tasks[i]).Some?
      ensures HandedIn(s', kind, true, PairRead(s'.tasks[i]).value.0)
      ensures HandedIn(s', kind, false, PairRead(s'.tasks[i]).value.1)
    {
      PairStaysTraced(s, s', id, i, kind);
    }
    forall kind, b | s'.row.Some? && Slot(s'.row.value, kind, b).Some?
      ensures HandedIn(s', kind, b, Slot(s'.row.value, kind, b).value)
    {
      if Submits(t, kind) && PhaseOf(t) == MayWrite(b) {
        assert HandedIn(s, kind, b, Value(t, kind));
      }
    }
  }

  lemma NextKeepsSlotsTraced(s: Trade, s': Trade)
    requires RolesTrue(s) && SlotsTraced(s) && Next(s, s')
    ensures SlotsTraced(s')
  {
    if id, t :| Arrives(s, s', id, t) {
      HandedInLasts(s, s', id);
    } else {
      var id, env :| Steps(s, s', id, env);
      StepMovesOn(s, s', id, env);
      StepKeepsSubmission(s.row, s.tasks[id], env);
      StepReadsPair(s.row, s.tasks[id], env);
      SlotsTracedAfter(s, s', id);
    }
  }

  lemma MovingOnKeepsWritersFilled(s: Trade, s': Trade, id: nat)
    requires WritersFilled(s) && MovesOn(s, s', id)
    ensures WritersFilled(s')
  {
  }

  lemma MovingOnKeepsHandOff(s: Trade, s': Trade, id: nat)
    requires HandOff(s) && MovesOn(s, s', id)
    ensures HandOff(s')
  {
    MovingOnKeepsWritersFilled(s, s', id);
  }

  lemma NextKeepsHandOff(s: Trade, s': Trade)
    requires HandOff(s) && Next(s, s')
    ensures HandOff(s')
  {
    if id, env :| Steps(s, s', id, env) {
      StepMovesOn(s, s', id, env);
      MovingOnKeepsHandOff(s, s', id);
    }
  }

  lemma ReachableSlotsGood(s: Trade)
    requires Reachable(s)
    ensures SlotsGood(s)
  {
    forall s, s' | SlotsGood(s) && Next(s, s') ensures SlotsGood(s') {
      NextKeepsRolesTrue(s, s');
      NextKeepsSlotsTraced(s, s');
      NextKeepsHandOff(s, s');
    }
    Runs.InvariantReachable(s, Init, Next, SlotsGood);
  }

  /** A slot only ever holds what its own trader handed in. */
  lemma SlotHoldsOwnTradersValue(s: Trade, kind: Kind, isMaker: bool)
    requires Reachable(s) && s.row.Some? && Slot(s.row.value, kind, isMaker).Some?
    ensures HandedIn(s, kind, isMaker, Slot(s.row.value, kind, isMaker).value)
  {
    ReachableSlotsGood(s);
  }

  /** A pair that is broadcast has a value of the maker in the maker position and a value of the
      taker in the taker position. */
  lemma PairInOrder(s: Trade, id: nat, kind: Kind)
    requires Reachable(s) && id in s.tasks && Submits(s.tasks[id], kind) && PairRead(s.tasks[id]).Some?
    ensures HandedIn(s, kind, true, PairRead(s.tasks[id]).value.0)
    ensures HandedIn(s, kind, false, PairRead(s.tasks[id]).value.1)
  {
    ReachableSlotsGood(s);
  }

  ghost predicate HasRead(t: Task, isMaker: bool) {
    PhaseOf(t) == SawOne(isMaker) || PhaseOf(t) == SawBoth(isMaker) || PhaseOf(t) == Missed(isMaker)
  }

  /** No hand-off is lost, whatever the interleaving: when a submission of the maker and one of the
      taker have both written and then read, one of them saw both values, or one of them found the
      row gone, and then the payout had been broadcast. */
  lemma NoLostHandOff(s: Trade, kind: Kind, i: nat, j: nat)
    requires Reachable(s) && i in s.tasks && j in s.tasks
    requires Submits(s.tasks[i], kind) && HasRead(s.tasks[i], true)
    requires Submits(s.tasks[j], kind) && HasRead(s.tasks[j], false)
    ensures PhaseOf(s.tasks[i]).SawBoth? || PhaseOf(s.tasks[j]).SawBoth?
      || PhaseOf(s.tasks[i]).Missed? || PhaseOf(s.tasks[j]).Missed?
    ensures PhaseOf(s.tasks[i]).Missed? || PhaseOf(s.tasks[j]).Missed? ==>
      s.row.None? && exists k :: KeyspendSent(k) in s.log && Deleted(k) in s.log
  {
    ReachableSlotsGood(s);
    if s.row.None? {
      GoneRowWasPaidOut(s);
    }
  }

  // ---- write once ----

  /** Two submissions of one trader both stand between their check and their update. */
  ghost predicate Race(s: Trade, kind: Kind, isMaker: bool, i: nat, j: nat) {
    && i != j && i in s.tasks && j in s.tasks && Submits(s.tasks[i], kind) && Submits(s.tasks[j], kind)
    && PhaseOf(s.tasks[i]) == MayWrite(isMaker) && PhaseOf(s.tasks[j]) == MayWrite(isMaker)
  }

  ghost predicate NoRace(s: Trade) {
    forall kind, b, i, j :: !Race(s, kind, b, i, j)
  }

  /** Who may write still finds its slot empty. */
  ghost predicate ChecksHold(s: Trade) {
    s.row.Some? ==> forall id :: id in s.tasks && PhaseOf(s.tasks[id]).MayWrite? ==>
      Slot(s.row.value, KindOf(s.tasks[id]), PhaseOf(s.tasks[id]).isMaker).None?
  }

  lemma NextKeepsChecks(s: Trade, s': Trade)
    requires ChecksHold(s) && NoRace(s) && Next(s, s')
    ensures ChecksHold(s')
  {
    if id, env :| Steps(s, s', id, env) {
      var t := s.tasks[id];
      StepWritesOwnSlot(s.row, t, env);
      StepMovesPhase(s.row, t, env);
      StepKeepsSubmission(s.row, t, env);
      forall j | s'.row.Some? && j in s'.tasks && PhaseOf(s'.tasks[j]).MayWrite?
        ensures Slot(s'.row.value, KindOf(s'.tasks[j]), PhaseOf(s'.tasks[j]).isMaker).None?
      {
        var b := PhaseOf(s'.tasks[j]).isMaker;
        if j != id {
          assert !Race(s, KindOf(s.tasks[j]), b, id, j);
        }
      }
    }
  }

  lemma {:induction false} ChecksHoldWithoutRaces(run: seq<Trade>, i: nat)
    requires IsRun(run) && i < |run| && forall j :: 0 <= j < i ==> NoRace(run[j])
    ensures ChecksHold(run[i])
  {
    if i > 0 {
      ChecksHoldWithoutRaces(run, i - 1);
      assert Runs.StepAt(run, Next, i - 1);
      NextKeepsChecks(run[i - 1], run[i]);
    }
  }

  lemma NextKeepsFilledSlot(s: Trade, s': Trade, kind: Kind, isMaker: bool)
    requires ChecksHold(s) && Next(s, s') && s'.row.Some?
    ensures s.row.Some?
    ensures Slot(s.row.value, kind, isMaker).Some? ==> Slot(s'.row.value, kind, isMaker) == Slot(s.row.value, kind, isMaker)
  {
    if id, env :| Steps(s, s', id, env) {
      StepWritesOwnSlot(s.row, s.tasks[id], env);
    }
  }

  /** Without such a race every slot is written at most once: over any stretch of the run a filled
      slot keeps its value for as long as the row exists. */
  lemma {:induction false} WrittenOnce(run: seq<Trade>, i: nat, j: nat, kind: Kind, isMaker: bool)
    requires IsRun(run) && i <= j < |run| && forall n :: 0 <= n < j ==> NoRace(run[n])
    requires run[j].row.Some? && run[i].row.Some? && Slot(run[i].row.value, kind, isMaker).Some?
    ensures Slot(run[j].row.value, kind, isMaker) == Slot(run[i].row.value, kind, isMaker)
  {
    if i < j {
      ChecksHoldWithoutRaces(run, j - 1);
      assert Runs.StepAt(run, Next, j - 1);
      NextKeepsFilledSlot(run[j - 1], run[j], kind, isMaker);
      WrittenOnce(run, i, j - 1, kind, isMaker);
    }
  }

  predicate InFlight(t: Task) {
    IsSubmission(t) && !IsFinished(t)
  }

  ghost predicate OneInFlightEach(s: Trade) {
    forall i, j :: i in s.tasks && j in s.tasks && InFlight(s.tasks[i]) && InFlight(s.tasks[j])
      && KindOf(s.tasks[i]) == KindOf(s.tasks[j]) && s.tasks[i].who == s.tasks[j].who
      ==> i == j
  }

  /** One submission in flight per trader rules the race out. */
  lemma OneInFlightMeansNoRace(s: Trade)
    requires Reachable(s) && OneInFlightEach(s)
    ensures NoRace(s)
  {
    ReachableSlotsGood(s);
    forall kind, b, i, j ensures !Race(s, kind, b, i, j) {
      if i in s.tasks && PhaseOf(s.tasks[i]) == MayWrite(b) {
        WriterIsTrader(s, i, b);
      }
      if j in s.tasks && PhaseOf(s.tasks[j]) == MayWrite(b) {
        WriterIsTrader(s, j, b);
      }
    }
  }

  lemma WriterIsTrader(s: Trade, id: nat, isMaker: bool)
    requires RolesTrue(s) && id in s.tasks && PhaseOf(s.tasks[id]) == MayWrite(isMaker)
    ensures InFlight(s.tasks[id]) && s.tasks[id].who == TraderId(s.terms, isMaker)
  {
  }

  /** The condition is exact: wherever the race occurs while the row exists, two more steps of the
      same run fill the slot with one value and then overwrite it with the other. */
  lemma RaceOverwrites(s: Trade, kind: Kind, isMaker: bool, i: nat, j: nat) returns (s1: Trade, s2: Trade)
    requires s.row.Some? && Race(s, kind, isMaker, i, j)
    ensures Next(s, s1) && s1.row.Some? && Slot(s1.row.value, kind, isMaker) == Some(Value(s.tasks[i], kind))
    ensures Next(s1, s2) && s2.row.Some? && Slot(s2.row.value, kind, isMaker) == Some(Value(s.tasks[j], kind))
  {
    var env := Env(true, None, true, true, true, None, true);
    var r1 := TaskStep(s.row, s.tasks[i], env);
    s1 := s.(row := r1.row, tasks := s.tasks[i := r1.task], log := s.log + r1.events);
    assert Steps(s, s1, i, env);
    var r2 := TaskStep(s1.row, s1.tasks[j], env);
    s2 := s1.(row := r2.row, tasks := s1.tasks[j := r2.task], log := s1.log + r2.events);
    assert Steps(s1, s2, j, env);
  }

  // ---- when a filled slot can still change ----

  /** A submission that saw this slot empty and brings another value. */
  predicate WillOverwrite(t: Task, kind: Kind, isMaker: bool, v: Hex) {
    Submits(t, kind) && PhaseOf(t) == MayWrite(isMaker) && Value(t, kind) != v
  }

  /** The slot holds `v`, and nobody is left to overwrite it. */
  ghost predicate SlotFixed(s: Trade, kind: Kind, isMaker: bool, v: Hex) {
    && (s.row.Some? ==> Slot(s.row.value, kind, isMaker) == Some(v))
    && forall id :: id in s.tasks ==> !WillOverwrite(s.tasks[id], kind, isMaker, v)
  }

  lemma MovingOnKeepsSlotFixed(s: Trade, s': Trade, id: nat, kind: Kind, isMaker: bool, v: Hex)
    requires SlotFixed(s, kind, isMaker, v) && MovesOn(s, s', id) && KeepsSubmission(s.row, s.tasks[id], s'.tasks[id])
    ensures SlotFixed(s', kind, isMaker, v)
  {
    var t, t' := s.tasks[id], s'.tasks[id];
    assert Submits(t, kind) <==> Submits(t', kind);
    if s'.row.Some? && Submits(t, kind) && PhaseOf(t) == MayWrite(isMaker) {
      assert Value(t, kind) == v;
    }
  }

  lemma NextKeepsSlotFixed(s: Trade, s': Trade, kind: Kind, isMaker: bool, v: Hex)
    requires SlotFixed(s, kind, isMaker, v) && Next(s, s')
    ensures SlotFixed(s', kind, isMaker, v)
  {
    if id, env :| Steps(s, s', id, env) {
      StepMovesOn(s, s', id, env);
      StepKeepsSubmission(s.row, s.tasks[id], env);
      MovingOnKeepsSlotFixed(s, s', id, kind, isMaker, v);
    }
  }

  lemma Overwrite(s: Trade, id: nat, kind: Kind, isMaker: bool, v: Hex) returns (s': Trade)
    requires s.row.Some? && id in s.tasks && WillOverwrite(s.tasks[id], kind, isMaker, v)
    ensures Next(s, s') && s'.row.Some? && Slot(s'.row.value, kind, isMaker) != Some(v)
  {
    var env := Env(true, None, true, true, true, None, true);
    var r := TaskStep(s.row, s.tasks[id], env);
    s' := s.(row := r.row, tasks := s.tasks[id := r.task], log := s.log + r.events);
    assert Steps(s, s', id, env);
  }

  ghost predicate SlotChanged(s: Trade, kind: Kind, isMaker: bool, v: Hex) {
    s.row.Some? && Slot(s.row.value, kind, isMaker) != Some(v)
  }

  /** Write once, exactly: a filled slot can still change in some continuation when and only when a
      submission that saw it empty has not written yet, and brings another value. */
  lemma FilledSlotChangesIff(s: Trade, kind: Kind, isMaker: bool, v: Hex)
    requires s.row.Some? && Slot(s.row.value, kind, isMaker) == Some(v)
    ensures (exists s' :: Leads(s, s') && SlotChanged(s', kind, isMaker, v))
      <==> exists id :: id in s.tasks && WillOverwrite(s.tasks[id], kind, isMaker, v)
  {
    if id :| id in s.tasks && WillOverwrite(s.tasks[id], kind, isMaker, v) {
      var s' := Overwrite(s, id, kind, isMaker, v);
      Runs.StaysPut(s, Next);
      Runs.GoesOn(s, s, s', Next);
      assert Leads(s, s') && SlotChanged(s', kind, isMaker, v);
    } else {
      forall s' | Leads(s, s') ensures !SlotChanged(s', kind, isMaker, v) {
        forall u, u' | SlotFixed(u, kind, isMaker, v) && Next(u, u') ensures SlotFixed(u', kind, isMaker, v) {
          NextKeepsSlotFixed(u, u', kind, isMaker, v);
        }
        Runs.InvariantContinues(s, s', Next, u => SlotFixed(u, kind, isMaker, v));
      }
    }
  }
}
