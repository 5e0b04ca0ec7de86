/** One taken offer as a transition system. Every handler, monitor pass and verdict that works on
    the row is a task with a program counter; one step of one task is one SQL statement or one
    call outside the database, and steps of any number of tasks interleave freely. Finished tasks
    stay in the state with the answer they gave, and `log` records what happened. */
module Trade {
  import opened Types
  import opened Statements
  import Runs

  // ---- tasks ----

  /** handle_signed_escrow_psbt */
  datatype PsbtPc =
    | Arrived | Member | Role(isMaker: bool) | Vacant(isMaker: bool) | Written(isMaker: bool)
    | Pair(isMaker: bool, makerPsbt: Hex, takerPsbt: Hex)
    | Refused(error: RequestError) | Awaiting(isMaker: bool) | RowGone(isMaker: bool)
    | Sent(isMaker: bool, makerPsbt: Hex, takerPsbt: Hex)
    | SendFailed(isMaker: bool, makerPsbt: Hex, takerPsbt: Hex)

  /** handle_obligation_confirmation and initiate_escrow */
  datatype HappyPc =
    | Arrived | Member | Cleared | Role(isMaker: bool) | Withdrawn(isMaker: bool)
    | Recorded(isMaker: bool) | Refused(error: RequestError)

  /** handle_final_payout. TurnedAway and NotReady give the trader the same answer;
      Served hands out the stored PSBT, Delivered the poller's own one. */
  datatype PollPc =
    | Arrived | BothHappy | DataRead | NoPsbt | Admitted | Assembled(psbt: Hex) | Stored(psbt: Hex) | InDispute
    | NotReady | TurnedAway | AssemblyFailed | Served(psbt: Hex) | Delivered(psbt: Hex) | BackFailed(psbt: Hex)
    | Lost | Deciding | Panicked | Refused(error: RequestError)

  /** handle_payout_signature */
  datatype SigPc =
    | Arrived | Member | Cleared | Role(isMaker: bool) | Vacant(isMaker: bool) | Written(isMaker: bool)
    | Context(isMaker: bool, keyspend: Keyspend) | Broadcasted(isMaker: bool, keyspend: Keyspend)
    | Awaiting(isMaker: bool) | RowGone(isMaker: bool) | NoPayout(isMaker: bool) | Undecodable(isMaker: bool)
    | SendFailed(isMaker: bool, keyspend: Keyspend) | PaidOut(isMaker: bool, keyspend: Keyspend)
    | Refused(error: RequestError)

  /** the confirmation monitor looking at one txid */
  datatype ConfirmPc = Arrived | Listed | Qualified(confirmations: nat) | Finished

  /** the dispute command line looking at this row */
  datatype CliPc = Arrived | Open(maker: Robohash, taker: Robohash) | Closed

  /** The two partial signatures and the payout PSBT a payout is broadcast with. */
  datatype Keyspend = Keyspend(makerSig: Hex, takerSig: Hex, psbt: Hex)

  datatype Task =
    | PsbtTask(who: Robohash, psbt: Hex, psbtPc: PsbtPc)
    | HappyTask(who: Robohash, happy: bool, happyPc: HappyPc)
    | PollTask(who: Robohash, pollPc: PollPc)
    | SigTask(who: Robohash, sig: Hex, sigPc: SigPc)
    | ConfirmTask(txid: Txid, confirmPc: ConfirmPc)
    | CliTask(cliPc: CliPc)

  predicate IsNew(t: Task) {
    match t
    case PsbtTask(_, _, pc) => pc.Arrived?
    case HappyTask(_, _, pc) => pc.Arrived?
    case PollTask(_, pc) => pc.Arrived?
    case SigTask(_, _, pc) => pc.Arrived?
    case ConfirmTask(_, pc) => pc.Arrived?
    case CliTask(pc) => pc.Arrived?
  }

  predicate IsFinished(t: Task) {
    match t
    case PsbtTask(_, _, pc) => pc.Refused? || pc.Awaiting? || pc.RowGone? || pc.Sent? || pc.SendFailed?
    case HappyTask(_, _, pc) => pc.Recorded? || pc.Refused?
    case PollTask(_, pc) =>
      pc.NotReady? || pc.TurnedAway? || pc.AssemblyFailed? || pc.Served? || pc.Delivered? || pc.BackFailed?
      || pc.Lost? || pc.Deciding? || pc.Panicked? || pc.Refused?
    case SigTask(_, _, pc) =>
      pc.Awaiting? || pc.RowGone? || pc.NoPayout? || pc.Undecodable? || pc.SendFailed? || pc.PaidOut? || pc.Refused?
    case ConfirmTask(_, pc) => pc.Finished?
    case CliTask(pc) => pc.Closed?
  }

  // ---- history ----

  datatype Event =
    | Reported(txid: Txid, confirmations: nat)
    | MarkedConfirmed(txid: Txid)
    | MarkedHappy(isMaker: bool)
    | SawBothHappy
    | StoredPayout(psbt: Hex)
    | StoredSig(isMaker: bool, sig: Hex)
    | KeyspendSent(keyspend: Keyspend)
    | DisputeOpened
    | Deleted(keyspend: Keyspend)

  /** What lies outside the database: outcomes of wallet and RPC calls and of the operator. */
  datatype Env = Env(
    payoutDataOk: bool,
    assembled: Option<Hex>,
    escrowSendOk: bool,
    decodes: bool,
    keyspendSendOk: bool,
    confirmations: Option<nat>,
    makerWins: bool)

  // ---- one step of one task ----

  datatype Step = Step(row: Option<TakenOffer>, task: Task, events: seq<Event>)

  function StepPsbt(row: Option<TakenOffer>, t: Task, env: Env): Step
    requires t.PsbtTask? && !IsFinished(t)
  {
    match t.psbtPc
    case Arrived =>
      if row.Some? && IsMember(row.value, t.who)
      then Step(row, t.(psbtPc := PsbtPc.Member), [])
      else Step(row, t.(psbtPc := PsbtPc.Refused(NotFound)), [])
    case Member =>
      if row.Some? && RoleOf(row.value, t.who).Some?
      then Step(row, t.(psbtPc := PsbtPc.Role(RoleOf(row.value, t.who).value)), [])
      else Step(row, t.(psbtPc := PsbtPc.Refused(Database)), [])
    case Role(isMaker) =>
      if row.None? then Step(row, t.(psbtPc := PsbtPc.Refused(Database)), [])
      else if SignedPsbt(row.value, isMaker).Some?
      then Step(row, t.(psbtPc := PsbtPc.Refused(AlreadySubmitted)), [])
      else Step(row, t.(psbtPc := PsbtPc.Vacant(isMaker)), [])
    case Vacant(isMaker) =>
      var row' := if row.Some? then Some(PutSignedPsbt(row.value, isMaker, t.psbt)) else None;
      Step(row', t.(psbtPc := PsbtPc.Written(isMaker)), [])
    case Written(isMaker) =>
      if row.None? then Step(row, t.(psbtPc := PsbtPc.RowGone(isMaker)), [])
      else if row.value.signedPsbtMaker.Some? && row.value.signedPsbtTaker.Some?
      then Step(row, t.(psbtPc := PsbtPc.Pair(isMaker, row.value.signedPsbtMaker.value, row.value.signedPsbtTaker.value)), [])
      else Step(row, t.(psbtPc := PsbtPc.Awaiting(isMaker)), [])
    case Pair(isMaker, m, k) =>
      if env.escrowSendOk
      then Step(row, t.(psbtPc := PsbtPc.Sent(isMaker, m, k)), [])
      else Step(row, t.(psbtPc := PsbtPc.SendFailed(isMaker, m, k)), [])
  }

  function StepHappy(row: Option<TakenOffer>, t: Task, env: Env): Step
    requires t.HappyTask? && !IsFinished(t)
  {
    match t.happyPc
    case Arrived =>
      if row.Some? && IsMember(row.value, t.who)
      then Step(row, t.(happyPc := HappyPc.Member), [])
      else Step(row, t.(happyPc := HappyPc.Refused(NotFound)), [])
    case Member =>
      if row.None? then Step(row, t.(happyPc := HappyPc.Refused(Database)), [])
      else if row.value.confirmed == 1
      then Step(row, t.(happyPc := HappyPc.Cleared), [])
      else Step(row, t.(happyPc := HappyPc.Refused(NotConfirmed)), [])
    case Cleared =>
      if row.Some? && RoleOf(row.value, t.who).Some?
      then Step(row, t.(happyPc := HappyPc.Role(RoleOf(row.value, t.who).value)), [])
      else Step(row, t.(happyPc := HappyPc.Refused(Database)), [])
    case Role(isMaker) =>
      var row' := if row.Some? then Some(PutHappy(row.value, isMaker, t.happy)) else None;
      if t.happy
      then Step(row', t.(happyPc := HappyPc.Recorded(isMaker)), if row.Some? then [MarkedHappy(isMaker)] else [])
      else Step(row', t.(happyPc := HappyPc.Withdrawn(isMaker)), [])
    case Withdrawn(isMaker) =>
      var row' := if row.Some? then Some(OpenDispute(row.value)) else None;
      Step(row', t.(happyPc := HappyPc.Recorded(isMaker)), if row.Some? then [DisputeOpened] else [])
  }

  function StepPoll(row: Option<TakenOffer>, t: Task, env: Env): Step
    requires t.PollTask? && !IsFinished(t)
  {
    match t.pollPc
    case Arrived =>
      if row.None? then Step(row, t.(pollPc := PollPc.Refused(Database)), [])
      else if HappyTrue(row.value.makerHappy) && HappyTrue(row.value.takerHappy)
      then Step(row, t.(pollPc := PollPc.BothHappy), [SawBothHappy])
      else if (row.value.makerHappy.None? || row.value.takerHappy.None?) && row.value.escrowOngoing == 0
      then Step(row, t.(pollPc := PollPc.NotReady), [])
      else Step(row, t.(pollPc := PollPc.InDispute), [])
    case BothHappy =>
      if row.Some? && env.payoutDataOk
      then Step(row, t.(pollPc := PollPc.DataRead), [])
      else Step(row, t.(pollPc := PollPc.Refused(Database)), [])
    case DataRead =>
      if row.None? then Step(row, t.(pollPc := PollPc.Refused(Database)), [])
      else if row.value.payoutPsbt.Some?
      then Step(row, t.(pollPc := PollPc.Served(row.value.payoutPsbt.value)), [])
      else Step(row, t.(pollPc := PollPc.NoPsbt), [])
    case NoPsbt =>
      if row.None? then Step(row, t.(pollPc := PollPc.Refused(Database)), [])
      else if Toggle(row.value).processing == 1
      then Step(Some(Toggle(row.value)), t.(pollPc := PollPc.Admitted), [])
      else Step(Some(Toggle(row.value)), t.(pollPc := PollPc.TurnedAway), [])
    case Admitted =>
      if env.assembled.Some?
      then Step(row, t.(pollPc := PollPc.Assembled(env.assembled.value)), [])
      else Step(row, t.(pollPc := PollPc.AssemblyFailed), [])
    case Assembled(psbt) =>
      var row' := if row.Some? then Some(PutPayoutPsbt(row.value, psbt)) else None;
      Step(row', t.(pollPc := PollPc.Stored(psbt)), if row.Some? then [StoredPayout(psbt)] else [])
    case Stored(psbt) =>
      if row.None? then Step(row, t.(pollPc := PollPc.BackFailed(psbt)), [])
      else Step(Some(Toggle(row.value)), t.(pollPc := PollPc.Delivered(psbt)), [])
    case InDispute =>
      if row.None? then Step(row, t.(pollPc := PollPc.Refused(Database)), [])
      else if row.value.escrowWinner.None?
      then Step(row, t.(pollPc := PollPc.Deciding), [])
      else if row.value.escrowWinner.value == t.who
      then Step(row, t.(pollPc := PollPc.Panicked), [])
      else Step(row, t.(pollPc := PollPc.Lost), [])
  }

  function StepSig(row: Option<TakenOffer>, t: Task, env: Env): Step
    requires t.SigTask? && !IsFinished(t)
  {
    match t.sigPc
    case Arrived =>
      if row.Some? && IsMember(row.value, t.who)
      then Step(row, t.(sigPc := SigPc.Member), [])
      else Step(row, t.(sigPc := SigPc.Refused(NotFound)), [])
    case Member =>
      if row.None? then Step(row, t.(sigPc := SigPc.Refused(Database)), [])
      else if row.value.confirmed == 1
      then Step(row, t.(sigPc := SigPc.Cleared), [])
      else Step(row, t.(sigPc := SigPc.Refused(NotConfirmed)), [])
    case Cleared =>
      if row.Some? && RoleOf(row.value, t.who).Some?
      then Step(row, t.(sigPc := SigPc.Role(RoleOf(row.value, t.who).value)), [])
      else Step(row, t.(sigPc := SigPc.Refused(Database)), [])
    case Role(isMaker) =>
      if row.Some? && PartialSig(row.value, isMaker).None?
      then Step(row, t.(sigPc := SigPc.Vacant(isMaker)), [])
      else Step(row, t.(sigPc := SigPc.Refused(Database)), [])
    case Vacant(isMaker) =>
      var row' := if row.Some? then Some(PutPartialSig(row.value, isMaker, t.sig)) else None;
      Step(row', t.(sigPc := SigPc.Written(isMaker)), if row.Some? then [StoredSig(isMaker, t.sig)] else [])
    case Written(isMaker) =>
      if row.None? then Step(row, t.(sigPc := SigPc.RowGone(isMaker)), [])
      else if row.value.partialSigMaker.None? || row.value.partialSigTaker.None?
      then Step(row, t.(sigPc := SigPc.Awaiting(isMaker)), [])
      else if row.value.payoutPsbt.None?
      then Step(row, t.(sigPc := SigPc.NoPayout(isMaker)), [])
      else if !env.decodes
      then Step(row, t.(sigPc := SigPc.Undecodable(isMaker)), [])
      else
        var keyspend := Keyspend(row.value.partialSigMaker.value, row.value.partialSigTaker.value, row.value.payoutPsbt.value);
        Step(row, t.(sigPc := SigPc.Context(isMaker, keyspend)), [])
    case Context(isMaker, keyspend) =>
      if env.keyspendSendOk
      then Step(row, t.(sigPc := SigPc.Broadcasted(isMaker, keyspend)), [KeyspendSent(keyspend)])
      else Step(row, t.(sigPc := SigPc.SendFailed(isMaker, keyspend)), [])
    case Broadcasted(isMaker, keyspend) =>
      Step(None, t.(sigPc := SigPc.PaidOut(isMaker, keyspend)), if row.Some? then [Deleted(keyspend)] else [])
  }

  /** A pass only lists this row's txid while the row is unconfirmed; it may list any txid of
      another row. */
  function StepConfirm(row: Option<TakenOffer>, t: Task, env: Env): Step
    requires t.ConfirmTask? && !IsFinished(t)
  {
    match t.confirmPc
    case Arrived =>
      if row.Some? && row.value.terms.escrow.txid == t.txid && row.value.confirmed != 0
      then Step(row, t.(confirmPc := ConfirmPc.Finished), [])
      else Step(row, t.(confirmPc := ConfirmPc.Listed), [])
    case Listed =>
      if env.confirmations.Some? && env.confirmations.value > 3
      then Step(row, t.(confirmPc := ConfirmPc.Qualified(env.confirmations.value)),
                [Reported(t.txid, env.confirmations.value)])
      else Step(row, t.(confirmPc := ConfirmPc.Finished), [])
    case Qualified(n) =>
      var row' := if row.Some? then Some(Confirm(row.value, t.txid)) else None;
      Step(row', t.(confirmPc := ConfirmPc.Finished),
           if row.Some? && row.value.terms.escrow.txid == t.txid then [MarkedConfirmed(t.txid)] else [])
  }

  function StepCli(row: Option<TakenOffer>, t: Task, env: Env): Step
    requires t.CliTask? && !IsFinished(t)
  {
    match t.cliPc
    case Arrived =>
      if row.Some? && row.value.escrowOngoing == 1
      then Step(row, t.(cliPc := CliPc.Open(row.value.terms.robohashMaker, row.value.terms.robohashTaker)), [])
      else Step(row, t.(cliPc := CliPc.Closed), [])
    case Open(maker, taker) =>
      var row' := if row.Some? then Some(Resolve(row.value, if env.makerWins then maker else taker)) else None;
      Step(row', t.(cliPc := CliPc.Closed), [])
  }

  function TaskStep(row: Option<TakenOffer>, t: Task, env: Env): Step
    requires !IsFinished(t)
  {
    match t
    case PsbtTask(_, _, _) => StepPsbt(row, t, env)
    case HappyTask(_, _, _) => StepHappy(row, t, env)
    case PollTask(_, _) => StepPoll(row, t, env)
    case SigTask(_, _, _) => StepSig(row, t, env)
    case ConfirmTask(_, _) => StepConfirm(row, t, env)
    case CliTask(_) => StepCli(row, t, env)
  }

  // ---- the transition system ----

  datatype Trade = Trade(terms: Terms, row: Option<TakenOffer>, tasks: map<nat, Task>, log: seq<Event>)

  ghost predicate Init(s: Trade) {
    s.row == Some(FreshRow(s.terms)) && s.tasks == map[] && s.log == []
  }

  ghost predicate Arrives(s: Trade, s': Trade, id: nat, t: Task) {
    id !in s.tasks && IsNew(t) && s' == s.(tasks := s.tasks[id := t])
  }

  ghost predicate Steps(s: Trade, s': Trade, id: nat, env: Env) {
    id in s.tasks && !IsFinished(s.tasks[id]) &&
    var r := TaskStep(s.row, s.tasks[id], env);
    s' == s.(row := r.row, tasks := s.tasks[id := r.task], log := s.log + r.events)
  }

  ghost predicate Next(s: Trade, s': Trade) {
    (exists id, t :: Arrives(s, s', id, t)) || (exists id, env :: Steps(s, s', id, env))
  }

  ghost predicate IsRun(run: seq<Trade>) {
    Runs.IsRun(run, Init, Next)
  }

  ghost predicate Reachable(s: Trade) {
    Runs.Reachable(s, Init, Next)
  }

  /** Some continuation of `s` ends in `s'`. */
  ghost predicate Leads(s: Trade, s': Trade) {
    Runs.LeadsTo(s, s', Next)
  }
}
