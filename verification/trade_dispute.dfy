/** Happiness, dispute and verdict: which states occur and what a poll makes of them. */
module TradeDispute {
  import opened Types
  import opened Statements
  import opened Trade
  import Runs

  /** The only values the dispute columns ever take. */
  ghost predicate DisputeColumns(terms: Terms, row: TakenOffer) {
    && row.terms == terms
    && NullOrOne(row.makerHappy) && NullOrOne(row.takerHappy)
    && (row.escrowOngoing == 0 || row.escrowOngoing == 1)
    && (row.escrowWinner.Some? ==>
          row.escrowWinner.value == terms.robohashMaker || row.escrowWinner.value == terms.robohashTaker)
  }

  ghost predicate CaseTrue(terms: Terms, t: Task) {
    t.CliTask? && t.cliPc.Open? ==> t.cliPc.maker == terms.robohashMaker && t.cliPc.taker == terms.robohashTaker
  }

  ghost predicate DisputeKnown(s: Trade) {
    && (s.row.Some? ==> DisputeColumns(s.terms, s.row.value))
    && forall id :: id in s.tasks ==> CaseTrue(s.terms, s.tasks[id])
  }

  lemma SlotStepKeepsDispute(terms: Terms, row: TakenOffer, t: Task, env: Env)
    requires !IsFinished(t) && (t.PsbtTask? || t.SigTask?) && DisputeColumns(terms, row)
    ensures var r := TaskStep(Some(row), t, env);
      r.row.Some? ==> DisputeColumns(terms, r.row.value)
  {
  }

  lemma HappyStepKeepsDispute(terms: Terms, row: TakenOffer, t: Task, env: Env)
    requires !IsFinished(t) && t.HappyTask? && DisputeColumns(terms, row)
    ensures var r := TaskStep(Some(row), t, env);
      r.row.Some? ==> DisputeColumns(terms, r.row.value)
  {
  }

  lemma PollStepKeepsDispute(terms: Terms, row: TakenOffer, t: Task, env: Env)
    requires !IsFinished(t) && t.PollTask? && DisputeColumns(terms, row)
    ensures var r := TaskStep(Some(row), t, env);
      r.row.Some? ==> DisputeColumns(terms, r.row.value)
  {
  }

  lemma StepKeepsDispute(terms: Terms, row: Option<TakenOffer>, t: Task, env: Env)
    requires !IsFinished(t) && CaseTrue(terms, t) && (row.Some? ==> DisputeColumns(terms, row.value))
    ensures var r := TaskStep(row, t, env);
      CaseTrue(terms, r.task) && (r.row.Some? ==> DisputeColumns(terms, r.row.value))
  {
    if row.Some? && (t.PsbtTask? || t.SigTask?) {
      SlotStepKeepsDispute(terms, row.value, t, env);
    } else if row.Some? && t.HappyTask? {
      HappyStepKeepsDispute(terms, row.value, t, env);
    } else if row.Some? && t.PollTask? {
      PollStepKeepsDispute(terms, row.value, t, env);
    }
  }

  lemma NextKeepsDisputeKnown(s: Trade, s': Trade)
    requires DisputeKnown(s) && Next(s, s')
    ensures DisputeKnown(s')
  {
    if id, env :| Steps(s, s', id, env) {
      StepKeepsDispute(s.terms, s.row, s.tasks[id], env);
    }
  }

  /** In every reachable state each happiness column is NULL or 1 and the winner is NULL or one of
      the two traders. */
  lemma DisputeStatesClassified(s: Trade)
    requires Reachable(s) && s.row.Some?
    ensures DisputeColumns(s.terms, s.row.value)
  {
    forall s, s' | DisputeKnown(s) && Next(s, s') ensures DisputeKnown(s') {
      NextKeepsDisputeKnown(s, s');
    }
    Runs.InvariantReachable(s, Init, Next, DisputeKnown);
  }

  /** What the first read of a poll decides, exactly: payout when both traders are happy, even in
      an open dispute; otherwise dispute when one is open; otherwise not ready. */
  lemma PollClassified(s: Trade, who: Robohash, env: Env)
    requires Reachable(s) && s.row.Some?
    ensures var pc := TaskStep(s.row, PollTask(who, PollPc.Arrived), env).task.pollPc;
      var both := s.row.value.makerHappy == Some(1) && s.row.value.takerHappy == Some(1);
      && (pc.BothHappy? <==> both)
      && (pc.InDispute? <==> !both && s.row.value.escrowOngoing == 1)
      && (pc.NotReady? <==> !both && s.row.value.escrowOngoing == 0)
  {
    DisputeStatesClassified(s);
  }

  // ---- a verdict is not reported by itself ----

  ghost predicate DisputeOpenedSince(s: Trade, s': Trade) {
    exists n :: |s.log| <= n < |s'.log| && s'.log[n] == DisputeOpened
  }

  /** A row that exists existed before; a dispute is only opened by a request for escrow. */
  lemma StepOpensDispute(s: Trade, s': Trade)
    requires Next(s, s')
    ensures |s.log| <= |s'.log| && s'.log[..|s.log|] == s.log
    ensures s'.row.Some? ==> s.row.Some?
    ensures s'.row.Some? && s.row.value.escrowOngoing == 0 && s'.row.value.escrowOngoing != 0 ==>
      s'.log == s.log + [DisputeOpened]
  {
  }

  lemma {:induction false} RowExistedBefore(run: seq<Trade>, i: nat, j: nat)
    requires IsRun(run) && i <= j < |run| && run[j].row.Some?
    ensures run[i].row.Some?
  {
    if i < j {
      assert Runs.StepAt(run, Next, j - 1);
      StepOpensDispute(run[j - 1], run[j]);
      RowExistedBefore(run, i, j - 1);
    }
  }

  /** From a state with no open dispute, for instance right after a verdict, any later state has
      one only if a trader asked for escrow in between. */
  lemma {:induction false} DisputeReopensOnlyOnRequest(run: seq<Trade>, i: nat, j: nat)
    requires IsRun(run) && i <= j < |run| && run[j].row.Some?
    requires run[i].row.Some? && run[i].row.value.escrowOngoing == 0
    ensures |run[i].log| <= |run[j].log|
    ensures run[j].row.value.escrowOngoing != 0 ==> DisputeOpenedSince(run[i], run[j])
  {
    if i < j {
      var s, s' := run[j - 1], run[j];
      assert Runs.StepAt(run, Next, j - 1);
      StepOpensDispute(s, s');
      DisputeReopensOnlyOnRequest(run, i, j - 1);
      if s.row.value.escrowOngoing == 0 {
        assert s'.row.value.escrowOngoing != 0 ==> s'.log[|s.log|] == DisputeOpened;
      } else {
        var n :| |run[i].log| <= n < |s.log| && s.log[n] == DisputeOpened;
        assert s'.log[..|s.log|][n] == s'.log[n];
      }
    }
  }

  // ---- happiness taken back ----

  /** The happiness column of one trader. */
  function HappyColumn(row: TakenOffer, isMaker: bool): Option<int> {
    if isMaker then row.makerHappy else row.takerHappy
  }

  ghost predicate MarkedHappySince(s: Trade, s': Trade, isMaker: bool) {
    exists n :: |s.log| <= n < |s'.log| && s'.log[n] == MarkedHappy(isMaker)
  }

  /** A NULL column is only filled by that trader's own consent. */
  lemma StepFillsHappyColumn(s: Trade, s': Trade, isMaker: bool)
    requires Next(s, s') && s'.row.Some?
    ensures s.row.Some? && |s.log| <= |s'.log| && s'.log[..|s.log|] == s.log
    ensures HappyColumn(s.row.value, isMaker).None? && HappyColumn(s'.row.value, isMaker).Some? ==>
      s'.log == s.log + [MarkedHappy(isMaker)]
  {
  }

  lemma MarkIsSeen(base: Trade, s: Trade, s': Trade, isMaker: bool)
    requires |base.log| <= |s.log|
    ensures s'.log == s.log + [MarkedHappy(isMaker)] ==> MarkedHappySince(base, s', isMaker)
  {
    assert s'.log == s.log + [MarkedHappy(isMaker)] ==> |s.log| < |s'.log| && s'.log[|s.log|] == MarkedHappy(isMaker);
  }

  lemma {:induction false} EmptyHappyColumnStays(run: seq<Trade>, i: nat, j: nat, isMaker: bool)
    requires IsRun(run) && i <= j < |run| && run[j].row.Some? && |run[i].log| <= |run[j].log|
    requires run[i].row.Some? ==> HappyColumn(run[i].row.value, isMaker).None?
    requires !MarkedHappySince(run[i], run[j], isMaker)
    ensures HappyColumn(run[j].row.value, isMaker).None?
  {
    if i < j {
      var s, s' := run[j - 1], run[j];
      assert Runs.StepAt(run, Next, j - 1);
      StepFillsHappyColumn(s, s', isMaker);
      LogNeverShrinks(run, i, j - 1);
      assert forall n :: 0 <= n < |s.log| ==> s'.log[..|s.log|][n] == s.log[n];
      EmptyHappyColumnStays(run, i, j - 1, isMaker);
      MarkIsSeen(run[i], s, s', isMaker);
    }
  }

  lemma {:induction false} LogNeverShrinks(run: seq<Trade>, i: nat, j: nat)
    requires IsRun(run) && i <= j < |run|
    ensures |run[i].log| <= |run[j].log|
  {
    if i < j {
      LogNeverShrinks(run, i, j - 1);
      assert Runs.StepAt(run, Next, j - 1);
    }
  }

  /** A request for escrow takes the trader's happiness back: from the step that writes it until that
      trader consents again, its column is NULL and no poll that starts takes the payout branch. */
  lemma WithdrawalBlocksPayout(run: seq<Trade>, i: nat, j: nat, id: nat, env: Env, isMaker: bool, who: Robohash, env': Env)
    requires IsRun(run) && i < j < |run| && run[j].row.Some?
    requires id in run[i].tasks && run[i].tasks[id].HappyTask? && !run[i].tasks[id].happy
    requires run[i].tasks[id].happyPc == HappyPc.Role(isMaker) && Steps(run[i], run[i + 1], id, env)
    requires !MarkedHappySince(run[i + 1], run[j], isMaker)
    ensures HappyColumn(run[j].row.value, isMaker) == None
    ensures !TaskStep(run[j].row, PollTask(who, PollPc.Arrived), env').task.pollPc.BothHappy?
  {
    LogNeverShrinks(run, i + 1, j);
    WithdrawalWritesNull(run[i], run[i + 1], id, env, isMaker);
    EmptyHappyColumnStays(run, i + 1, j, isMaker);
  }

  lemma WithdrawalWritesNull(s: Trade, s': Trade, id: nat, env: Env, isMaker: bool)
    requires Steps(s, s', id, env) && s.tasks[id].HappyTask? && !s.tasks[id].happy
    requires s.tasks[id].happyPc == HappyPc.Role(isMaker)
    ensures s'.row.Some? ==> HappyColumn(s'.row.value, isMaker) == None
  {
  }

  /** The step that stores a verdict closes the dispute, and the verdict is one of the two ids. */
  lemma VerdictClosesDispute(s: Trade, id: nat, env: Env)
    requires Reachable(s) && s.row.Some? && id in s.tasks && s.tasks[id].CliTask? && s.tasks[id].cliPc.Open?
    ensures var row' := TaskStep(s.row, s.tasks[id], env).row;
      && row'.Some? && row'.value.escrowOngoing == 0
      && row'.value.escrowWinner == Some(TraderId(s.terms, env.makerWins))
  {
    forall s, s' | DisputeKnown(s) && Next(s, s') ensures DisputeKnown(s') {
      NextKeepsDisputeKnown(s, s');
    }
    Runs.InvariantReachable(s, Init, Next, DisputeKnown);
    assert CaseTrue(s.terms, s.tasks[id]);
  }

  /** After a verdict a poll that starts, without a new escrow request and without mutual consent in
      between, is told that nothing is ready. Polls that have started before are another matter. */
  lemma VerdictStaysUnreported(run: seq<Trade>, i: nat, j: nat, id: nat, env: Env, who: Robohash, env': Env)
    requires IsRun(run) && i < j < |run| && run[j].row.Some?
    requires id in run[i].tasks && run[i].tasks[id].CliTask? && run[i].tasks[id].cliPc.Open?
    requires Steps(run[i], run[i + 1], id, env)
    requires !DisputeOpenedSince(run[i + 1], run[j])
    requires !(HappyTrue(run[j].row.value.makerHappy) && HappyTrue(run[j].row.value.takerHappy))
    ensures run[i + 1].row.Some? && run[i + 1].row.value.escrowWinner == Some(TraderId(run[i].terms, env.makerWins))
    ensures TaskStep(run[j].row, PollTask(who, PollPc.Arrived), env').task.pollPc == PollPc.NotReady
  {
    RowExistedBefore(run, i, j);
    Runs.RunStateReachable(run, Init, Next, i);
    Runs.RunStateReachable(run, Init, Next, j);
    VerdictClosesDispute(run[i], id, env);
    DisputeReopensOnlyOnRequest(run, i + 1, j);
    DisputeStatesClassified(run[j]);
    PollClassified(run[j], who, env');
  }
}
