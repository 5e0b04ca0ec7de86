/** The request handlers of a taken offer, as they run on the tables with nothing in between, each
    proved to do exactly what its task does in the transition system. */
module Handlers {
  import opened Types
  import opened Statements
  import opened Database
  import opened Trade

  // ---- a task on its own ----

  function Rank(t: Task): nat {
    match t
    case PsbtTask(_, _, pc) =>
      (match pc
       case Arrived => 6 case Member => 5 case Role(_) => 4 case Vacant(_) => 3 case Written(_) => 2 case Pair(_, _, _) => 1
       case _ => 0)
    case HappyTask(_, _, pc) =>
      (match pc
       case Arrived => 5 case Member => 4 case Cleared => 3 case Role(_) => 2 case Withdrawn(_) => 1
       case _ => 0)
    case PollTask(_, pc) =>
      (match pc
       case Arrived => 7 case BothHappy => 6 case DataRead => 5 case NoPsbt => 4 case Admitted => 3 case Assembled(_) => 2
       case Stored(_) => 1 case InDispute => 1
       case _ => 0)
    case SigTask(_, _, pc) =>
      (match pc
       case Arrived => 8 case Member => 7 case Cleared => 6 case Role(_) => 5 case Vacant(_) => 4 case Written(_) => 3
       case Context(_, _) => 2 case Broadcasted(_, _) => 1
       case _ => 0)
    case ConfirmTask(_, pc) =>
      (match pc case Arrived => 3 case Listed => 2 case Qualified(_) => 1 case _ => 0)
    case CliTask(pc) =>
      (match pc case Arrived => 2 case Open(_, _) => 1 case _ => 0)
  }

  lemma SigRankFalls(row: Option<TakenOffer>, t: Task, env: Env)
    requires !IsFinished(t) && t.SigTask?
    ensures Rank(TaskStep(row, t, env).task) < Rank(t)
  {
  }

  lemma RankFalls(row: Option<TakenOffer>, t: Task, env: Env)
    requires !IsFinished(t)
    ensures Rank(TaskStep(row, t, env).task) < Rank(t)
  {
    if t.SigTask? {
      SigRankFalls(row, t, env);
    }
  }

  datatype End = End(row: Option<TakenOffer>, task: Task)

  /** The end of a task that runs without interference. */
  function RunAlone(row: Option<TakenOffer>, t: Task, env: Env): (r: End)
    ensures IsFinished(r.task)
    decreases Rank(t)
  {
    if IsFinished(t) then End(row, t)
    else
      var r := TaskStep(row, t, env);
      RankFalls(row, t, env);
      RunAlone(r.row, r.task, env)
  }

  datatype PayoutAnswer = ReadyPsbt(psbt: Hex) | NotReady | LostEscrow | DecidingEscrow

  /** What the trader is answered at the end of a task. */
  function PsbtReply(t: Task): Result<(), RequestError> {
    match t
    case PsbtTask(_, _, Refused(e)) => Err(e)
    case PsbtTask(_, _, SendFailed(_, _, _)) => Err(PsbtInvalid)
    case PsbtTask(_, _, Awaiting(_)) => Ok(())
    case PsbtTask(_, _, Sent(_, _, _)) => Ok(())
    case _ => Err(Database)
  }

  function HappyReply(t: Task): Result<(), RequestError> {
    match t
    case HappyTask(_, _, Refused(e)) => Err(e)
    case HappyTask(_, _, Recorded(_)) => Ok(())
    case _ => Err(Database)
  }

  function PollReply(t: Task): Result<PayoutAnswer, RequestError> {
    match t
    case PollTask(_, Served(p)) => Ok(ReadyPsbt(p))
    case PollTask(_, Delivered(p)) => Ok(ReadyPsbt(p))
    case PollTask(_, NotReady) => Ok(PayoutAnswer.NotReady)
    case PollTask(_, TurnedAway) => Ok(PayoutAnswer.NotReady)
    case PollTask(_, Lost) => Ok(LostEscrow)
    case PollTask(_, Deciding) => Ok(DecidingEscrow)
    case PollTask(_, AssemblyFailed) => Err(CoordinatorError)
    case PollTask(_, Panicked) => Err(Unimplemented)
    case PollTask(_, Refused(e)) => Err(e)
    case _ => Err(Database)
  }

  function SigReply(t: Task): Result<bool, RequestError> {
    match t
    case SigTask(_, _, PaidOut(_, _)) => Ok(true)
    case SigTask(_, _, Awaiting(_)) => Ok(false)
    case SigTask(_, _, SendFailed(_, _)) => Err(CoordinatorError)
    case SigTask(_, _, Refused(e)) => Err(e)
    case _ => Err(Database)
  }

  // ---- the handlers ----

  /** One of the two traders of an existing row. */
  predicate TradesHere(row: Option<TakenOffer>, who: Robohash) {
    row.Some? && (who == row.value.terms.robohashMaker || who == row.value.terms.robohashTaker)
  }

  predicate IsTheMaker(row: TakenOffer, who: Robohash) {
    who == row.terms.robohashMaker
  }

  /** Both traders' guard: a member of the trade, and a confirmed escrow. */
  method CheckOfferAndConfirmation(db: CoordinatorDb, offerId: OfferId, who: Robohash) returns (r: Result<(), RequestError>)
    ensures r == if !TradesHere(db.Row(offerId), who) then Err(NotFound)
                 else if db.Row(offerId).value.confirmed != 1 then Err(NotConfirmed) else Ok(())
  {
    var valid := db.IsValidRobohashInTable(offerId, who);
    if !valid {
      return Err(NotFound);
    }
    var confirmed := db.FetchEscrowTxConfirmationStatus(offerId);
    if confirmed.Err? {
      return Err(Database);
    }
    if !confirmed.value {
      return Err(NotConfirmed);
    }
    return Ok(());
  }

  lemma PsbtStep(row: Option<TakenOffer>, who: Robohash, psbt: Hex, pc: PsbtPc, env: Env)
    requires !IsFinished(PsbtTask(who, psbt, pc))
    ensures var r := TaskStep(row, PsbtTask(who, psbt, pc), env);
      && r.task.PsbtTask? && r.task.who == who && r.task.psbt == psbt
      && RunAlone(row, PsbtTask(who, psbt, pc), env) == RunAlone(r.row, PsbtTask(who, psbt, r.task.psbtPc), env)
  {
  }

  /** The checks and the update of a PSBT submission, up to the read of both columns. */
  lemma PsbtUntilWritten(row: TakenOffer, who: Robohash, psbt: Hex, env: Env)
    ensures var end := RunAlone(Some(row), PsbtTask(who, psbt, PsbtPc.Arrived), env);
      if !IsMember(row, who) then end == End(Some(row), PsbtTask(who, psbt, PsbtPc.Refused(NotFound)))
      else
        var isMaker := RoleOf(row, who).value;
        if SignedPsbt(row, isMaker).Some? then end == End(Some(row), PsbtTask(who, psbt, PsbtPc.Refused(AlreadySubmitted)))
        else end == RunAlone(Some(PutSignedPsbt(row, isMaker, psbt)), PsbtTask(who, psbt, PsbtPc.Written(isMaker)), env)
  {
    PsbtStep(Some(row), who, psbt, PsbtPc.Arrived, env);
    if IsMember(row, who) {
      PsbtStep(Some(row), who, psbt, PsbtPc.Member, env);
      var isMaker := RoleOf(row, who).value;
      PsbtStep(Some(row), who, psbt, PsbtPc.Role(isMaker), env);
      PsbtStep(Some(row), who, psbt, PsbtPc.Vacant(isMaker), env);
    }
  }

  /** Stores the trader's signed PSBT in its own empty slot. If the other one is there, both are handed
      to the broadcast, the maker's first: that is `sent`. */
  method HandleSignedEscrowPsbt(db: CoordinatorDb, offerId: OfferId, who: Robohash, psbt: Hex, env: Env)
    returns (r: Result<(), RequestError>, sent: Option<(Hex, Hex)>)
    modifies db`takenOffers
    ensures
      var row := old(db.Row(offerId));
      if !TradesHere(row, who) then
        r == Err(NotFound) && sent == None && db.takenOffers == old(db.takenOffers)
      else if (if IsTheMaker(row.value, who) then row.value.signedPsbtMaker.Some? else row.value.signedPsbtTaker.Some?) then
        r == Err(AlreadySubmitted) && sent == None && db.takenOffers == old(db.takenOffers)
      else if IsTheMaker(row.value, who) then
        && db.takenOffers == old(db.takenOffers)[offerId := row.value.(signedPsbtMaker := Some(psbt))]
        && sent == (if row.value.signedPsbtTaker.Some? then Some((psbt, row.value.signedPsbtTaker.value)) else None)
        && r == if sent.Some? && !env.escrowSendOk then Err(PsbtInvalid) else Ok(())
      else
        && db.takenOffers == old(db.takenOffers)[offerId := row.value.(signedPsbtTaker := Some(psbt))]
        && sent == (if row.value.signedPsbtMaker.Some? then Some((row.value.signedPsbtMaker.value, psbt)) else None)
        && r == if sent.Some? && !env.escrowSendOk then Err(PsbtInvalid) else Ok(())
    ensures var end := RunAlone(old(db.Row(offerId)), PsbtTask(who, psbt, PsbtPc.Arrived), env);
      db.takenOffers == WithRow(old(db.takenOffers), offerId, end.row) && r == PsbtReply(end.task)
  {
    if offerId in db.takenOffers {
      PsbtUntilWritten(db.takenOffers[offerId], who, psbt, env);
    }
    var valid := db.IsValidRobohashInTable(offerId, who);
    if !valid {
      return Err(NotFound), None;
    }
    ghost var isMaker := RoleOf(db.Row(offerId).value, who).value;
    var inserted := db.InsertSignedEscrowPsbt(offerId, who, psbt);
    if inserted.Err? {
      return Err(Database), None;
    }
    if !inserted.value {
      return Err(AlreadySubmitted), None;
    }
    WithRowTwice(old(db.takenOffers), offerId, db.takenOffers[offerId], db.Row(offerId));
    r, sent := SendIfBothSigned(db, offerId, who, psbt, isMaker, env);
  }

  /** The end of the PSBT handler: read both columns and, if both are filled, send the escrow. */
  method SendIfBothSigned(db: CoordinatorDb, offerId: OfferId, ghost who: Robohash, ghost psbt: Hex, ghost isMaker: bool, env: Env)
    returns (r: Result<(), RequestError>, sent: Option<(Hex, Hex)>)
    requires offerId in db.takenOffers
    ensures var end := RunAlone(db.Row(offerId), PsbtTask(who, psbt, PsbtPc.Written(isMaker)), env);
      end.row == db.Row(offerId) && r == PsbtReply(end.task)
    ensures var row := db.takenOffers[offerId];
      sent == if row.signedPsbtMaker.Some? && row.signedPsbtTaker.Some?
              then Some((row.signedPsbtMaker.value, row.signedPsbtTaker.value)) else None
    ensures r == if sent.Some? && !env.escrowSendOk then Err(PsbtInvalid) else Ok(())
  {
    PsbtStep(db.Row(offerId), who, psbt, PsbtPc.Written(isMaker), env);
    var both := db.FetchBothSignedEscrowPsbts(offerId);
    if both.Err? {
      return Err(Database), None;
    }
    if both.value.None? {
      return Ok(()), None;
    }
    PsbtStep(db.Row(offerId), who, psbt, PsbtPc.Pair(isMaker, both.value.value.0, both.value.value.1), env);
    if !env.escrowSendOk {
      return Err(PsbtInvalid), both.value;
    }
    return Ok(()), both.value;
  }

  lemma HappyStep(row: Option<TakenOffer>, who: Robohash, happy: bool, pc: HappyPc, env: Env)
    requires !IsFinished(HappyTask(who, happy, pc))
    ensures var r := TaskStep(row, HappyTask(who, happy, pc), env);
      && r.task.HappyTask? && r.task.who == who && r.task.happy == happy
      && RunAlone(row, HappyTask(who, happy, pc), env) == RunAlone(r.row, HappyTask(who, happy, r.task.happyPc), env)
  {
  }

  lemma HappyAlone(row: TakenOffer, who: Robohash, happy: bool, env: Env)
    ensures var end := RunAlone(Some(row), HappyTask(who, happy, HappyPc.Arrived), env);
      if !IsMember(row, who) then end == End(Some(row), HappyTask(who, happy, HappyPc.Refused(NotFound)))
      else if row.confirmed != 1 then end == End(Some(row), HappyTask(who, happy, HappyPc.Refused(NotConfirmed)))
      else
        var flag := if happy then Some(1) else None;
        var ongoing := if happy then row.escrowOngoing else 1;
        if IsTheMaker(row, who)
        then end == End(Some(row.(makerHappy := flag, escrowOngoing := ongoing)), HappyTask(who, happy, HappyPc.Recorded(true)))
        else end == End(Some(row.(takerHappy := flag, escrowOngoing := ongoing)), HappyTask(who, happy, HappyPc.Recorded(false)))
  {
    HappyStep(Some(row), who, happy, HappyPc.Arrived, env);
    if IsMember(row, who) {
      HappyStep(Some(row), who, happy, HappyPc.Member, env);
      if row.confirmed == 1 {
        var isMaker := RoleOf(row, who).value;
        HappyStep(Some(row), who, happy, HappyPc.Cleared, env);
        HappyStep(Some(row), who, happy, HappyPc.Role(isMaker), env);
        if !happy {
          HappyStep(Some(PutHappy(row, isMaker, happy)), who, happy, HappyPc.Withdrawn(isMaker), env);
        }
      }
    }
  }

  /** Both happiness handlers: they differ in the flag only. */
  method SetHappiness(db: CoordinatorDb, offerId: OfferId, who: Robohash, happy: bool, ghost env: Env)
    returns (r: Result<(), RequestError>)
    modifies db`takenOffers
    ensures
      var row := old(db.Row(offerId));
      if !TradesHere(row, who) then r == Err(NotFound) && db.takenOffers == old(db.takenOffers)
      else if row.value.confirmed != 1 then r == Err(NotConfirmed) && db.takenOffers == old(db.takenOffers)
      else
        var flag := if happy then Some(1) else None;
        var ongoing := if happy then row.value.escrowOngoing else 1;
        && r == Ok(())
        && db.takenOffers == old(db.takenOffers)[offerId :=
             if IsTheMaker(row.value, who) then row.value.(makerHappy := flag, escrowOngoing := ongoing)
             else row.value.(takerHappy := flag, escrowOngoing := ongoing)]
    ensures var end := RunAlone(old(db.Row(offerId)), HappyTask(who, happy, HappyPc.Arrived), env);
      db.takenOffers == WithRow(old(db.takenOffers), offerId, end.row) && r == HappyReply(end.task)
  {
    if offerId in db.takenOffers {
      HappyAlone(db.takenOffers[offerId], who, happy, env);
    }
    var check := CheckOfferAndConfirmation(db, offerId, who);
    if check.Err? {
      return Err(check.error);
    }
    r := db.SetTraderHappyField(offerId, who, happy);
  }

  /** Writes 1 into the trader's own happiness column, and nothing else. */
  method HandleObligationConfirmation(db: CoordinatorDb, offerId: OfferId, who: Robohash, ghost env: Env)
    returns (r: Result<(), RequestError>)
    modifies db`takenOffers
    ensures
      var row := old(db.Row(offerId));
      if !TradesHere(row, who) then r == Err(NotFound) && db.takenOffers == old(db.takenOffers)
      else if row.value.confirmed != 1 then r == Err(NotConfirmed) && db.takenOffers == old(db.takenOffers)
      else
        && r == Ok(())
        && db.takenOffers == old(db.takenOffers)[offerId :=
             if IsTheMaker(row.value, who) then row.value.(makerHappy := Some(1)) else row.value.(takerHappy := Some(1))]
    ensures var end := RunAlone(old(db.Row(offerId)), HappyTask(who, true, HappyPc.Arrived), env);
      db.takenOffers == WithRow(old(db.takenOffers), offerId, end.row) && r == HappyReply(end.task)
  {
    r := SetHappiness(db, offerId, who, true, env);
  }

  /** Takes the trader's own happiness back and opens a dispute; no other column changes. */
  method InitiateEscrow(db: CoordinatorDb, offerId: OfferId, who: Robohash, ghost env: Env)
    returns (r: Result<(), RequestError>)
    modifies db`takenOffers
    ensures
      var row := old(db.Row(offerId));
      if !TradesHere(row, who) then r == Err(NotFound) && db.takenOffers == old(db.takenOffers)
      else if row.value.confirmed != 1 then r == Err(NotConfirmed) && db.takenOffers == old(db.takenOffers)
      else
        && r == Ok(())
        && db.takenOffers == old(db.takenOffers)[offerId :=
             if IsTheMaker(row.value, who) then row.value.(makerHappy := None, escrowOngoing := 1) else row.value.(takerHappy := None, escrowOngoing := 1)]
    ensures var end := RunAlone(old(db.Row(offerId)), HappyTask(who, false, HappyPc.Arrived), env);
      db.takenOffers == WithRow(old(db.takenOffers), offerId, end.row) && r == HappyReply(end.task)
  {
    r := SetHappiness(db, offerId, who, false, env);
  }

  lemma PollStep(row: Option<TakenOffer>, who: Robohash, pc: PollPc, env: Env)
    requires !IsFinished(PollTask(who, pc))
    ensures var r := TaskStep(row, PollTask(who, pc), env);
      r.task.PollTask? && r.task.who == who
      && RunAlone(row, PollTask(who, pc), env) == RunAlone(r.row, PollTask(who, r.task.pollPc), env)
  {
  }

  /** Both traders are happy: neither column is NULL or 0. */
  predicate BothConsent(row: TakenOffer) {
    row.makerHappy.Some? && row.makerHappy.value != 0 && row.takerHappy.Some? && row.takerHappy.value != 0
  }

  /** The answer to a poll of two happy traders, and what it leaves of the row. */
  predicate PaysOut(row: TakenOffer, env: Env, r: Result<PayoutAnswer, RequestError>, row': TakenOffer) {
    if !env.payoutDataOk then r == Err(Database) && row' == row
    else if row.payoutPsbt.Some? then r == Ok(ReadyPsbt(row.payoutPsbt.value)) && row' == row
    else if row.processing != 0 then r == Ok(PayoutAnswer.NotReady) && row' == row.(processing := 0)
    else if env.assembled.None? then r == Err(CoordinatorError) && row' == row.(processing := 1)
    else r == Ok(ReadyPsbt(env.assembled.value)) && row' == row.(payoutPsbt := env.assembled, processing := 0)
  }

  /** The payout branch for two happy traders; otherwise not ready while one has not answered and no
      dispute is open; otherwise the dispute, as far as it is decided. */
  method HandleFinalPayout(db: CoordinatorDb, offerId: OfferId, who: Robohash, env: Env)
    returns (r: Result<PayoutAnswer, RequestError>)
    modifies db`takenOffers
    ensures
      var row := old(db.Row(offerId));
      if row.None? then r == Err(Database) && db.takenOffers == old(db.takenOffers)
      else if BothConsent(row.value) then
        && offerId in db.takenOffers && PaysOut(row.value, env, r, db.takenOffers[offerId])
        && db.takenOffers == old(db.takenOffers)[offerId := db.takenOffers[offerId]]
      else
        && db.takenOffers == old(db.takenOffers)
        && r == if (row.value.makerHappy.None? || row.value.takerHappy.None?) && row.value.escrowOngoing == 0
                then Ok(PayoutAnswer.NotReady)
                else if row.value.escrowWinner == None then Ok(DecidingEscrow)
                else if row.value.escrowWinner == Some(who) then Err(Unimplemented)
                else Ok(LostEscrow)
    ensures var end := RunAlone(old(db.Row(offerId)), PollTask(who, PollPc.Arrived), env);
      db.takenOffers == WithRow(old(db.takenOffers), offerId, end.row) && r == PollReply(end.task)
  {
    PollStep(db.Row(offerId), who, PollPc.Arrived, env);
    var happiness := db.FetchTraderHappiness(offerId);
    if happiness.Err? {
      return Err(Database);
    }
    if happiness.value.makerHappy == Some(true) && happiness.value.takerHappy == Some(true) {
      r := PayOutHappyTraders(db, offerId, who, env);
      return;
    } else if (happiness.value.makerHappy.None? || happiness.value.takerHappy.None?) && !happiness.value.escrowOngoing {
      return Ok(PayoutAnswer.NotReady);
    }
    PollStep(db.Row(offerId), who, PollPc.InDispute, env);
    var winner := db.FetchEscrowResult(offerId);
    if winner.Err? {
      return Err(Database);
    }
    if winner.value.None? {
      return Ok(DecidingEscrow);
    }
    if winner.value.value == who {
      return Err(Unimplemented);
    }
    return Ok(LostEscrow);
  }

  /** The branch of the final payout for two happy traders. */
  method PayOutHappyTraders(db: CoordinatorDb, offerId: OfferId, ghost who: Robohash, env: Env)
    returns (r: Result<PayoutAnswer, RequestError>)
    requires offerId in db.takenOffers
    modifies db`takenOffers
    ensures var end := RunAlone(old(db.Row(offerId)), PollTask(who, PollPc.BothHappy), env);
      db.takenOffers == WithRow(old(db.takenOffers), offerId, end.row) && r == PollReply(end.task)
    ensures offerId in db.takenOffers && PaysOut(old(db.takenOffers)[offerId], env, r, db.takenOffers[offerId])
  {
    PollStep(db.Row(offerId), who, PollPc.BothHappy, env);
    if !env.payoutDataOk {
      return Err(Database);
    }
    PollStep(db.Row(offerId), who, PollPc.DataRead, env);
    var stored := db.FetchKeyspendPayoutPsbt(offerId);
    if stored.Err? {
      return Err(Database);
    }
    if stored.value.Some? {
      return Ok(ReadyPsbt(stored.value.value));
    }
    PollStep(db.Row(offerId), who, PollPc.NoPsbt, env);
    var admitted := db.ToggleProcessing(offerId);
    if admitted.Err? {
      return Err(Database);
    }
    if !admitted.value {
      return Ok(PayoutAnswer.NotReady);
    }
    ghost var row := db.takenOffers[offerId];
    WithRowTwice(old(db.takenOffers), offerId, row, RunAlone(Some(row), PollTask(who, PollPc.Admitted), env).row);
    r := AssemblePayout(db, offerId, who, env);
  }

  /** The poll that was admitted: assemble, store, toggle back. */
  method AssemblePayout(db: CoordinatorDb, offerId: OfferId, ghost who: Robohash, env: Env)
    returns (r: Result<PayoutAnswer, RequestError>)
    requires offerId in db.takenOffers
    modifies db`takenOffers
    ensures var end := RunAlone(old(db.Row(offerId)), PollTask(who, PollPc.Admitted), env);
      db.takenOffers == WithRow(old(db.takenOffers), offerId, end.row) && r == PollReply(end.task)
    ensures offerId in db.takenOffers &&
      if env.assembled.None? then r == Err(CoordinatorError) && db.takenOffers == old(db.takenOffers)
      else
        && r == Ok(ReadyPsbt(env.assembled.value))
        && db.takenOffers[offerId] == old(db.takenOffers)[offerId].(
             payoutPsbt := env.assembled, processing := if old(db.takenOffers)[offerId].processing == 0 then 1 else 0)
  {
    PollStep(db.Row(offerId), who, PollPc.Admitted, env);
    if env.assembled.None? {
      return Err(CoordinatorError);
    }
    var psbt := env.assembled.value;
    PollStep(db.Row(offerId), who, PollPc.Assembled(psbt), env);
    db.InsertKeyspendPayoutPsbt(offerId, psbt);
    PollStep(db.Row(offerId), who, PollPc.Stored(psbt), env);
    var back := db.ToggleProcessing(offerId);
    if back.Err? {
      return Err(Database);
    }
    return Ok(ReadyPsbt(psbt));
  }

  lemma SigStep(row: Option<TakenOffer>, who: Robohash, sig: Hex, pc: SigPc, env: Env)
    requires !IsFinished(SigTask(who, sig, pc))
    ensures var r := TaskStep(row, SigTask(who, sig, pc), env);
      r.task.SigTask? && r.task.who == who && r.task.sig == sig
      && RunAlone(row, SigTask(who, sig, pc), env) == RunAlone(r.row, SigTask(who, sig, r.task.sigPc), env)
  {
  }

  /** The checks and the update of a signature submission, up to the read of both columns. */
  lemma SigUntilCleared(row: TakenOffer, who: Robohash, sig: Hex, env: Env)
    ensures var end := RunAlone(Some(row), SigTask(who, sig, SigPc.Arrived), env);
      if !IsMember(row, who) then end == End(Some(row), SigTask(who, sig, SigPc.Refused(NotFound)))
      else if row.confirmed != 1 then end == End(Some(row), SigTask(who, sig, SigPc.Refused(NotConfirmed)))
      else end == RunAlone(Some(row), SigTask(who, sig, SigPc.Cleared), env)
  {
    SigStep(Some(row), who, sig, SigPc.Arrived, env);
    if IsMember(row, who) {
      SigStep(Some(row), who, sig, SigPc.Member, env);
    }
  }

  lemma SigUntilWritten(row: TakenOffer, who: Robohash, sig: Hex, env: Env)
    ensures var end := RunAlone(Some(row), SigTask(who, sig, SigPc.Arrived), env);
      if !IsMember(row, who) then end == End(Some(row), SigTask(who, sig, SigPc.Refused(NotFound)))
      else if row.confirmed != 1 then end == End(Some(row), SigTask(who, sig, SigPc.Refused(NotConfirmed)))
      else
        var isMaker := RoleOf(row, who).value;
        if PartialSig(row, isMaker).Some? then end == End(Some(row), SigTask(who, sig, SigPc.Refused(Database)))
        else end == RunAlone(Some(PutPartialSig(row, isMaker, sig)), SigTask(who, sig, SigPc.Written(isMaker)), env)
  {
    SigUntilCleared(row, who, sig, env);
    if IsMember(row, who) && row.confirmed == 1 {
      var isMaker := RoleOf(row, who).value;
      SigStep(Some(row), who, sig, SigPc.Cleared, env);
      SigStep(Some(row), who, sig, SigPc.Role(isMaker), env);
      if PartialSig(row, isMaker).None? {
        SigStep(Some(row), who, sig, SigPc.Vacant(isMaker), env);
      }
    }
  }

  /** What the signature handler does with the row once the signature is stored: `sent` is the keyspend
      it broadcasts. */
  predicate SignsOff(row: TakenOffer, env: Env, r: Result<bool, RequestError>, sent: Option<Keyspend>, gone: bool) {
    if row.partialSigMaker.None? || row.partialSigTaker.None? then r == Ok(false) && sent == None && !gone
    else if row.payoutPsbt.None? || !env.decodes then r == Err(Database) && sent == None && !gone
    else
      && sent == Some(Keyspend(row.partialSigMaker.value, row.partialSigTaker.value, row.payoutPsbt.value))
      && gone == env.keyspendSendOk && r == if gone then Ok(true) else Err(CoordinatorError)
  }

  /** Stores the trader's signature in its own empty slot. With both signatures and a payout PSBT that
      decode, exactly these are broadcast, and on success the row is deleted. */
  method HandlePayoutSignature(db: CoordinatorDb, offerId: OfferId, who: Robohash, sig: Hex, env: Env)
    returns (r: Result<bool, RequestError>, sent: Option<Keyspend>)
    modifies db`takenOffers
    ensures
      var row := old(db.Row(offerId));
      if !TradesHere(row, who) then
        r == Err(NotFound) && sent == None && db.takenOffers == old(db.takenOffers)
      else if row.value.confirmed != 1 then
        r == Err(NotConfirmed) && sent == None && db.takenOffers == old(db.takenOffers)
      else if (if IsTheMaker(row.value, who) then row.value.partialSigMaker.Some? else row.value.partialSigTaker.Some?) then
        r == Err(Database) && sent == None && db.takenOffers == old(db.takenOffers)
      else
        var signed := if IsTheMaker(row.value, who) then row.value.(partialSigMaker := Some(sig))
                      else row.value.(partialSigTaker := Some(sig));
        && SignsOff(signed, env, r, sent, offerId !in db.takenOffers)
        && db.takenOffers == if offerId !in db.takenOffers then old(db.takenOffers) - {offerId}
                             else old(db.takenOffers)[offerId := signed]
    ensures var end := RunAlone(old(db.Row(offerId)), SigTask(who, sig, SigPc.Arrived), env);
      db.takenOffers == WithRow(old(db.takenOffers), offerId, end.row) && r == SigReply(end.task)
  {
    if offerId in db.takenOffers {
      SigUntilWritten(db.takenOffers[offerId], who, sig, env);
    }
    var check := CheckOfferAndConfirmation(db, offerId, who);
    if check.Err? {
      return Err(check.error), None;
    }
    ghost var isMaker := RoleOf(db.Row(offerId).value, who).value;
    var inserted := db.InsertPartialSig(offerId, who, sig);
    if inserted.Err? {
      return Err(Database), None;
    }
    ghost var row := db.takenOffers[offerId];
    WithRowTwice(old(db.takenOffers), offerId, row,
      RunAlone(Some(row), SigTask(who, sig, SigPc.Written(isMaker)), env).row);
    r, sent := PayOutSigned(db, offerId, who, sig, isMaker, env);
  }

  /** The end of the signature handler: read both signatures, broadcast, delete. */
  method PayOutSigned(db: CoordinatorDb, offerId: OfferId, ghost who: Robohash, ghost sig: Hex, ghost isMaker: bool, env: Env)
    returns (r: Result<bool, RequestError>, sent: Option<Keyspend>)
    requires offerId in db.takenOffers
    modifies db`takenOffers
    ensures var end := RunAlone(old(db.Row(offerId)), SigTask(who, sig, SigPc.Written(isMaker)), env);
      db.takenOffers == WithRow(old(db.takenOffers), offerId, end.row) && r == SigReply(end.task)
    ensures SignsOff(old(db.takenOffers)[offerId], env, r, sent, offerId !in db.takenOffers)
    ensures db.takenOffers == if offerId !in db.takenOffers then old(db.takenOffers) - {offerId} else old(db.takenOffers)
  {
    SigStep(db.Row(offerId), who, sig, SigPc.Written(isMaker), env);
    var row := db.takenOffers[offerId];
    if row.partialSigMaker.None? || row.partialSigTaker.None? {
      return Ok(false), None;
    }
    if row.payoutPsbt.None? || !env.decodes {
      return Err(Database), None;
    }
    var keyspend := Keyspend(row.partialSigMaker.value, row.partialSigTaker.value, row.payoutPsbt.value);
    SigStep(db.Row(offerId), who, sig, SigPc.Context(isMaker, keyspend), env);
    if !env.keyspendSendOk {
      return Err(CoordinatorError), Some(keyspend);
    }
    SigStep(db.Row(offerId), who, sig, SigPc.Broadcasted(isMaker, keyspend), env);
    db.DeleteCompleteOffer(offerId);
    return Ok(true), Some(keyspend);
  }
}
