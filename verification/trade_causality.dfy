/** Nothing in a trade happens before what must precede it: deletion, keyspend broadcast, stored
    payout PSBT, one read of two happy traders, confirmation, report of the confirmations. */
module TradeCausality {
  import opened Types
  import opened Statements
  import opened Trade
  import Runs

  /** What must already be in the log when `e` is added to it. */
  ghost predicate Justified(terms: Terms, e: Event, before: seq<Event>) {
    match e
    case Reported(_, n) => n > 3
    case MarkedConfirmed(txid) =>
      txid == terms.escrow.txid && exists n :: Reported(txid, n) in before
    case MarkedHappy(_) => MarkedConfirmed(terms.escrow.txid) in before
    case SawBothHappy => MarkedHappy(true) in before && MarkedHappy(false) in before
    case StoredPayout(_) => SawBothHappy in before
    case StoredSig(_, _) => MarkedConfirmed(terms.escrow.txid) in before
    case KeyspendSent(k) =>
      StoredSig(true, k.makerSig) in before && StoredSig(false, k.takerSig) in before && StoredPayout(k.psbt) in before
    case DisputeOpened => MarkedConfirmed(terms.escrow.txid) in before
    case Deleted(k) => KeyspendSent(k) in before
  }

  ghost predicate Ordered(terms: Terms, log: seq<Event>) {
    forall i :: 0 <= i < |log| ==> Justified(terms, log[i], log[..i])
  }

  /** Every value in the row was put there by an event in the log. */
  ghost predicate RowExplained(row: TakenOffer, log: seq<Event>) {
    && (row.confirmed != 0 ==> row.confirmed == 1 && MarkedConfirmed(row.terms.escrow.txid) in log)
    && (row.makerHappy.Some? ==> MarkedHappy(true) in log)
    && (row.takerHappy.Some? ==> MarkedHappy(false) in log)
    && (row.partialSigMaker.Some? ==> StoredSig(true, row.partialSigMaker.value) in log)
    && (row.partialSigTaker.Some? ==> StoredSig(false, row.partialSigTaker.value) in log)
    && (row.payoutPsbt.Some? ==> StoredPayout(row.payoutPsbt.value) in log)
  }

  ghost predicate KeyspendExplained(k: Keyspend, log: seq<Event>) {
    StoredSig(true, k.makerSig) in log && StoredSig(false, k.takerSig) in log && StoredPayout(k.psbt) in log
  }

  /** What a task has already seen, by its program counter. */
  ghost predicate TaskExplained(terms: Terms, t: Task, log: seq<Event>) {
    match t
    case PsbtTask(_, _, _) => true
    case HappyTask(_, _, pc) =>
      pc.Cleared? || pc.Role? || pc.Withdrawn? ==> MarkedConfirmed(terms.escrow.txid) in log
    case PollTask(_, pc) =>
      pc.BothHappy? || pc.DataRead? || pc.NoPsbt? || pc.Admitted? || pc.Assembled? ==> SawBothHappy in log
    case SigTask(_, _, pc) =>
      && (pc.Cleared? || pc.Role? || pc.Vacant? ==> MarkedConfirmed(terms.escrow.txid) in log)
      && (pc.Context? ==> KeyspendExplained(pc.keyspend, log))
      && (pc.Broadcasted? ==> KeyspendSent(pc.keyspend) in log)
    case ConfirmTask(txid, pc) => pc.Qualified? ==> Reported(txid, pc.confirmations) in log
    case CliTask(_) => true
  }

  ghost predicate Gone(log: seq<Event>) {
    exists k :: Deleted(k) in log
  }

  ghost predicate Causal(s: Trade) {
    && Ordered(s.terms, s.log)
    && (if s.row.Some? then s.row.value.terms == s.terms && RowExplained(s.row.value, s.log) else Gone(s.log))
    && forall id :: id in s.tasks ==> TaskExplained(s.terms, s.tasks[id], s.log)
  }

  ghost predicate TradeExplained(terms: Terms, row: Option<TakenOffer>, t: Task, log: seq<Event>) {
    && (if row.Some? then row.value.terms == terms && RowExplained(row.value, log) else Gone(log))
    && TaskExplained(terms, t, log)
  }

  /** Explanations survive a longer log. */
  lemma ExplanationsLast(terms: Terms, row: Option<TakenOffer>, t: Task, log: seq<Event>, more: seq<Event>)
    requires TradeExplained(terms, row, t, log)
    ensures TradeExplained(terms, row, t, log + more)
  {
    assert forall e :: e in log ==> e in log + more;
  }

  /** One step keeps the row and its task explained, and adds at most one event, a justified one. */
  ghost predicate KeepsExplained(terms: Terms, log: seq<Event>, r: Step) {
    && (r.events == [] || (|r.events| == 1 && Justified(terms, r.events[0], log)))
    && TradeExplained(terms, r.row, r.task, log + r.events)
  }

  /** The rows differ in their PSBT columns at most. */
  predicate OnlyPsbtsDiffer(row: TakenOffer, row': TakenOffer) {
    && row'.terms == row.terms && row'.confirmed == row.confirmed && row'.payoutPsbt == row.payoutPsbt
    && row'.makerHappy == row.makerHappy && row'.takerHappy == row.takerHappy
    && row'.partialSigMaker == row.partialSigMaker && row'.partialSigTaker == row.partialSigTaker
  }

  /** A step of a PSBT submission records nothing and touches the PSBT columns only. */
  lemma PsbtStepIsSilent(row: Option<TakenOffer>, t: Task, env: Env)
    requires !IsFinished(t) && t.PsbtTask?
    ensures var r := StepPsbt(row, t, env);
      && r.events == [] && r.task.PsbtTask? && (r.row.Some? <==> row.Some?)
      && (row.Some? ==> OnlyPsbtsDiffer(row.value, r.row.value))
  {
  }

  lemma PsbtStepExplained(terms: Terms, row: Option<TakenOffer>, t: Task, env: Env, log: seq<Event>)
    requires !IsFinished(t) && t.PsbtTask? && TradeExplained(terms, row, t, log)
    ensures KeepsExplained(terms, log, StepPsbt(row, t, env))
  {
    PsbtStepIsSilent(row, t, env);
    var r := StepPsbt(row, t, env);
    assert log + r.events == log;
  }

  lemma HappyUpdateExplained(terms: Terms, row: Option<TakenOffer>, t: Task, env: Env, log: seq<Event>)
    requires !IsFinished(t) && t.HappyTask? && (t.happyPc.Role? || t.happyPc.Withdrawn?) && TradeExplained(terms, row, t, log)
    ensures KeepsExplained(terms, log, StepHappy(row, t, env))
  {
    var r := StepHappy(row, t, env);
    ExplanationsLast(terms, row, t, log, r.events);
  }

  lemma HappyStepExplained(terms: Terms, row: Option<TakenOffer>, t: Task, env: Env, log: seq<Event>)
    requires !IsFinished(t) && t.HappyTask? && TradeExplained(terms, row, t, log)
    ensures KeepsExplained(terms, log, StepHappy(row, t, env))
  {
    if t.happyPc.Role? || t.happyPc.Withdrawn? {
      HappyUpdateExplained(terms, row, t, env, log);
    } else {
      assert log + [] == log;
    }
  }

  lemma PollStepExplained(terms: Terms, row: Option<TakenOffer>, t: Task, env: Env, log: seq<Event>)
    requires !IsFinished(t) && t.PollTask? && TradeExplained(terms, row, t, log)
    ensures KeepsExplained(terms, log, StepPoll(row, t, env))
  {
    var r := StepPoll(row, t, env);
    ExplanationsLast(terms, row, t, log, r.events);
  }

  lemma SigStepExplained(terms: Terms, row: Option<TakenOffer>, t: Task, env: Env, log: seq<Event>)
    requires !IsFinished(t) && t.SigTask? && TradeExplained(terms, row, t, log)
    ensures KeepsExplained(terms, log, StepSig(row, t, env))
  {
    var r := StepSig(row, t, env);
    ExplanationsLast(terms, row, t, log, r.events);
    if row.Some? && r.row.None? {
      assert Deleted(t.sigPc.keyspend) in log + r.events;
    }
  }

  lemma ConfirmStepExplained(terms: Terms, row: Option<TakenOffer>, t: Task, env: Env, log: seq<Event>)
    requires !IsFinished(t) && t.ConfirmTask? && TradeExplained(terms, row, t, log)
    ensures KeepsExplained(terms, log, StepConfirm(row, t, env))
  {
    var r := StepConfirm(row, t, env);
    ExplanationsLast(terms, row, t, log, r.events);
  }

  lemma CliStepExplained(terms: Terms, row: Option<TakenOffer>, t: Task, env: Env, log: seq<Event>)
    requires !IsFinished(t) && t.CliTask? && TradeExplained(terms, row, t, log)
    ensures KeepsExplained(terms, log, StepCli(row, t, env))
  {
    assert log + [] == log;
  }

  lemma StepExplained(terms: Terms, row: Option<TakenOffer>, t: Task, env: Env, log: seq<Event>)
    requires !IsFinished(t) && TradeExplained(terms, row, t, log)
    ensures KeepsExplained(terms, log, TaskStep(row, t, env))
  {
    match t
    case PsbtTask(_, _, _) => PsbtStepExplained(terms, row, t, env, log);
    case HappyTask(_, _, _) => HappyStepExplained(terms, row, t, env, log);
    case PollTask(_, _) => PollStepExplained(terms, row, t, env, log);
    case SigTask(_, _, _) => SigStepExplained(terms, row, t, env, log);
    case ConfirmTask(_, _) => ConfirmStepExplained(terms, row, t, env, log);
    case CliTask(_) => CliStepExplained(terms, row, t, env, log);
  }

  lemma OrderedExtends(terms: Terms, log: seq<Event>, events: seq<Event>)
    requires Ordered(terms, log)
    requires events == [] || (|events| == 1 && Justified(terms, events[0], log))
    ensures Ordered(terms, log + events)
  {
    var log' := log + events;
    forall i | 0 <= i < |log'| ensures Justified(terms, log'[i], log'[..i]) {
      if i < |log| {
        assert log'[..i] == log[..i];
      } else {
        assert log'[..i] == log;
      }
    }
  }

  lemma StepKeepsCausal(s: Trade, s': Trade, id: nat, env: Env)
    requires Causal(s) && Steps(s, s', id, env)
    ensures Causal(s')
  {
    var r := TaskStep(s.row, s.tasks[id], env);
    StepExplained(s.terms, s.row, s.tasks[id], env, s.log);
    OrderedExtends(s.terms, s.log, r.events);
    assert forall e :: e in s.log ==> e in s'.log;
    forall j | j in s'.tasks ensures TaskExplained(s'.terms, s'.tasks[j], s'.log) {
      if j != id {
        assert TaskExplained(s.terms, s.tasks[j], s.log);
      }
    }
  }

  lemma NextKeepsCausal(s: Trade, s': Trade)
    requires Causal(s) && Next(s, s')
    ensures Causal(s')
  {
    if id, env :| Steps(s, s', id, env) {
      StepKeepsCausal(s, s', id, env);
    }
  }

  lemma ReachableCausal(s: Trade)
    requires Reachable(s)
    ensures Causal(s)
  {
    forall s, s' | Causal(s) && Next(s, s') ensures Causal(s') {
      NextKeepsCausal(s, s');
    }
    Runs.InvariantReachable(s, Init, Next, Causal);
  }

  ghost predicate At(log: seq<Event>, i: int, e: Event) {
    0 <= i < |log| && log[i] == e
  }

  /** An event of an ordered log has its causes before it. */
  lemma Causes(terms: Terms, log: seq<Event>, i: nat, e: Event)
    requires Ordered(terms, log) && At(log, i, e)
    ensures Justified(terms, e, log[..i])
  {
  }

  /** Where an event of the log stands. */
  lemma Find(log: seq<Event>, e: Event, bound: nat) returns (i: nat)
    requires bound <= |log| && e in log[..bound]
    ensures i < bound && At(log, i, e)
  {
    i :| 0 <= i < bound && log[..bound][i] == e;
  }

  lemma HappinessFollowsConfirmation(terms: Terms, log: seq<Event>, h: nat, isMaker: bool)
    returns (c: nat, r: nat, n: nat)
    requires Ordered(terms, log) && At(log, h, MarkedHappy(isMaker))
    ensures r < c < h && n > 3
    ensures At(log, c, MarkedConfirmed(terms.escrow.txid)) && At(log, r, Reported(terms.escrow.txid, n))
  {
    Causes(terms, log, h, MarkedHappy(isMaker));
    c := Find(log, MarkedConfirmed(terms.escrow.txid), h);
    Causes(terms, log, c, MarkedConfirmed(terms.escrow.txid));
    n :| Reported(terms.escrow.txid, n) in log[..c];
    r := Find(log, Reported(terms.escrow.txid, n), c);
    Causes(terms, log, r, Reported(terms.escrow.txid, n));
  }

  lemma PayoutFollowsHappiness(terms: Terms, log: seq<Event>, p: nat, psbt: Hex)
    returns (h: nat, hm: nat, ht: nat)
    requires Ordered(terms, log) && At(log, p, StoredPayout(psbt))
    ensures hm < h < p && ht < h
    ensures At(log, h, SawBothHappy) && At(log, hm, MarkedHappy(true)) && At(log, ht, MarkedHappy(false))
  {
    Causes(terms, log, p, StoredPayout(psbt));
    h := Find(log, SawBothHappy, p);
    Causes(terms, log, h, SawBothHappy);
    hm := Find(log, MarkedHappy(true), h);
    ht := Find(log, MarkedHappy(false), h);
  }

  lemma DeletionFollowsBroadcast(terms: Terms, log: seq<Event>, d: nat, k: Keyspend)
    returns (b: nat, m: nat, t: nat, p: nat)
    requires Ordered(terms, log) && At(log, d, Deleted(k))
    ensures b < d && m < b && t < b && p < b && At(log, b, KeyspendSent(k))
    ensures At(log, m, StoredSig(true, k.makerSig)) && At(log, t, StoredSig(false, k.takerSig))
    ensures At(log, p, StoredPayout(k.psbt))
  {
    Causes(terms, log, d, Deleted(k));
    b := Find(log, KeyspendSent(k), d);
    Causes(terms, log, b, KeyspendSent(k));
    m := Find(log, StoredSig(true, k.makerSig), b);
    t := Find(log, StoredSig(false, k.takerSig), b);
    p := Find(log, StoredPayout(k.psbt), b);
  }

  /** The whole causal chain of a finished trade, in every run: the row was deleted only after the
      very keyspend was broadcast, after both of its signatures and its payout PSBT were stored,
      after one read saw both traders happy, after each was marked happy, after the escrow was
      marked confirmed, after its txid was reported with more than three confirmations. */
  lemma DeletionComesLast(s: Trade, d: nat, k: Keyspend)
    returns (b: nat, sigM: nat, sigT: nat, p: nat, h: nat, hm: nat, ht: nat, c: nat, r: nat, n: nat)
    requires Reachable(s) && At(s.log, d, Deleted(k))
    ensures r < c < hm < h < p < b < d && ht < h && c < ht && sigM < b && sigT < b && n > 3
    ensures At(s.log, b, KeyspendSent(k))
    ensures At(s.log, sigM, StoredSig(true, k.makerSig)) && At(s.log, sigT, StoredSig(false, k.takerSig))
    ensures At(s.log, p, StoredPayout(k.psbt)) && At(s.log, h, SawBothHappy)
    ensures At(s.log, hm, MarkedHappy(true)) && At(s.log, ht, MarkedHappy(false))
    ensures At(s.log, c, MarkedConfirmed(s.terms.escrow.txid)) && At(s.log, r, Reported(s.terms.escrow.txid, n))
  {
    ReachableCausal(s);
    b, sigM, sigT, p := DeletionFollowsBroadcast(s.terms, s.log, d, k);
    h, hm, ht := PayoutFollowsHappiness(s.terms, s.log, p, k.psbt);
    c, r, n := HappinessFollowsConfirmation(s.terms, s.log, hm, true);
    var c', r', n' := HappinessFollowsConfirmation(s.terms, s.log, ht, false);
    if c' < c {
      c, r, n := c', r', n';
    }
  }

  /** A row that is gone was paid out. */
  lemma GoneRowWasPaidOut(s: Trade)
    requires Reachable(s) && s.row.None?
    ensures exists k :: Deleted(k) in s.log && KeyspendSent(k) in s.log
  {
    ReachableCausal(s);
    var k :| Deleted(k) in s.log;
    var d :| 0 <= d < |s.log| && s.log[d] == Deleted(k);
    Causes(s.terms, s.log, d, Deleted(k));
    var i := Find(s.log, KeyspendSent(k), d);
  }

  /** A row marked confirmed had its own txid reported with more than three confirmations. */
  lemma ConfirmationSound(s: Trade)
    requires Reachable(s) && s.row.Some? && s.row.value.confirmed != 0
    ensures s.row.value.confirmed == 1 && exists n :: n > 3 && Reported(s.terms.escrow.txid, n) in s.log
  {
    ReachableCausal(s);
    var txid := s.terms.escrow.txid;
    var m :| 0 <= m < |s.log| && s.log[m] == MarkedConfirmed(txid);
    Causes(s.terms, s.log, m, MarkedConfirmed(txid));
    var n :| Reported(txid, n) in s.log[..m];
    var i := Find(s.log, Reported(txid, n), m);
    Causes(s.terms, s.log, i, Reported(txid, n));
  }

  lemma MarkStays(s: Trade, s': Trade)
    requires Next(s, s') && s'.row.Some?
    ensures s.row.Some? && (s.row.value.confirmed == 1 ==> s'.row.value.confirmed == 1)
  {
  }

  /** In every run a row once marked confirmed stays so as long as it exists. */
  lemma {:induction false} ConfirmationSticky(run: seq<Trade>, i: nat, j: nat)
    requires IsRun(run) && i <= j < |run| && run[i].row.Some? && run[i].row.value.confirmed == 1
    ensures run[j].row.Some? ==> run[j].row.value.confirmed == 1
  {
    if i < j {
      assert Runs.StepAt(run, Next, j - 1);
      ConfirmationSticky(run, i, j - 1);
      if run[j].row.Some? {
        MarkStays(run[j - 1], run[j]);
      }
    }
  }
}
