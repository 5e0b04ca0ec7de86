/** The `processing` column used as a lock: how many pollers it can let into PSBT assembly, and
    what the traders are then handed. */
module TradeLock {
  import opened Types
  import opened Statements
  import opened Trade
  import Runs

  /** The tasks with a given property. */
  ghost function Having(tasks: map<nat, Task>, p: Task -> bool): set<nat> {
    set id | id in tasks && p(tasks[id])
  }

  ghost function Counts(tasks: map<nat, Task>, id: nat, p: Task -> bool): int {
    if id in tasks && p(tasks[id]) then 1 else 0
  }

  lemma WithoutOne(s: set<nat>, id: nat)
    ensures |s - {id}| == |s| - (if id in s then 1 else 0)
  {
    if id !in s {
      assert s - {id} == s;
    }
  }

  lemma HavingAfter(tasks: map<nat, Task>, id: nat, t: Task, p: Task -> bool)
    ensures |Having(tasks[id := t], p)| == |Having(tasks, p)| - Counts(tasks, id, p) + (if p(t) then 1 else 0)
  {
    var before, after := Having(tasks, p), Having(tasks[id := t], p);
    assert after - {id} == before - {id};
    assert id in before <==> Counts(tasks, id, p) == 1;
    assert id in after <==> p(t);
    WithoutOne(before, id);
    WithoutOne(after, id);
  }

  /** Admitted to assembly and not toggled back; a failed assembly never toggles back. */
  predicate IsInside(t: Task) {
    t.PollTask? && (t.pollPc.Admitted? || t.pollPc.Assembled? || t.pollPc.Stored? || t.pollPc.AssemblyFailed?)
  }

  predicate IsTurnedAway(t: Task) {
    t.PollTask? && t.pollPc.TurnedAway?
  }

  /** Ever admitted to assembly. */
  predicate WasAdmitted(t: Task) {
    IsInside(t) || (t.PollTask? && (t.pollPc.Delivered? || t.pollPc.BackFailed?))
  }

  ghost function InsideCount(s: Trade): nat { |Having(s.tasks, IsInside)| }

  ghost function AwayCount(s: Trade): nat { |Having(s.tasks, IsTurnedAway)| }

  ghost predicate LockCounted(s: Trade) {
    s.row.Some? ==>
      && 0 <= s.row.value.processing <= 1
      && s.row.value.processing == (InsideCount(s) + AwayCount(s)) % 2
      && InsideCount(s) <= AwayCount(s) + s.row.value.processing
  }

  /** How one step moves the lock and the two counts. */
  lemma StepMovesLock(row: TakenOffer, t: Task, env: Env)
    requires !IsFinished(t) && 0 <= row.processing <= 1
    ensures var r := TaskStep(Some(row), t, env);
      var inside := (if IsInside(r.task) then 1 else 0) - (if IsInside(t) then 1 else 0);
      var away := (if IsTurnedAway(r.task) then 1 else 0) - (if IsTurnedAway(t) then 1 else 0);
      r.row.Some? ==>
        if inside == 0 && away == 0 then r.row.value.processing == row.processing
        else
          && r.row.value.processing == 1 - row.processing
          && (inside == 1 ==> away == 0 && row.processing == 0)
          && (inside == 0 ==> away == 1 && row.processing == 1)
          && (inside == -1 ==> away == 0)
  {
  }

  lemma NextKeepsLockCounted(s: Trade, s': Trade)
    requires LockCounted(s) && Next(s, s')
    ensures LockCounted(s')
  {
    if id, t :| Arrives(s, s', id, t) {
      HavingAfter(s.tasks, id, t, IsInside);
      HavingAfter(s.tasks, id, t, IsTurnedAway);
    } else {
      var id, env :| Steps(s, s', id, env);
      StepKeepsLockCounted(s, s', id, env);
    }
  }

  lemma StepKeepsLockCounted(s: Trade, s': Trade, id: nat, env: Env)
    requires LockCounted(s) && Steps(s, s', id, env)
    ensures LockCounted(s')
  {
    var r := TaskStep(s.row, s.tasks[id], env);
    HavingAfter(s.tasks, id, r.task, IsInside);
    HavingAfter(s.tasks, id, r.task, IsTurnedAway);
    if s'.row.Some? {
      RowStaysGone(s.row, s.tasks[id], env);
      StepMovesLock(s.row.value, s.tasks[id], env);
    }
  }

  lemma RowStaysGone(row: Option<TakenOffer>, t: Task, env: Env)
    requires !IsFinished(t)
    ensures row.None? ==> TaskStep(row, t, env).row.None?
  {
  }

  /** In every run and at every statement boundary: `processing` is the parity of the pollers inside
      plus the pollers turned away, and the pollers inside never exceed the turned away ones by more
      than one. So nobody shares assembly as long as nobody has been turned away. */
  lemma LockBound(s: Trade)
    requires Reachable(s) && s.row.Some?
    ensures s.row.value.processing == (InsideCount(s) + AwayCount(s)) % 2
    ensures InsideCount(s) <= AwayCount(s) + 1
    ensures s.row.value.processing == 0 ==> InsideCount(s) <= AwayCount(s)
    ensures AwayCount(s) == 0 ==> InsideCount(s) <= 1
  {
    forall s, s' | LockCounted(s) && Next(s, s') ensures LockCounted(s') {
      NextKeepsLockCounted(s, s');
    }
    Runs.InvariantReachable(s, Init, Next, LockCounted);
  }

  // ---- the payout PSBT handed out ----

  /** The PSBT a poller assembled itself. */
  function OwnPsbt(t: Task): Option<Hex> {
    if t.PollTask? && (t.pollPc.Assembled? || t.pollPc.Stored? || t.pollPc.Delivered? || t.pollPc.BackFailed?)
    then Some(t.pollPc.psbt) else None
  }

  /** The PSBT a trader was answered with. */
  function Answer(t: Task): Option<Hex> {
    if t.PollTask? && (t.pollPc.Served? || t.pollPc.Delivered?) then Some(t.pollPc.psbt) else None
  }

  ghost predicate AssembledBySomeone(s: Trade, psbt: Hex) {
    exists id :: id in s.tasks && OwnPsbt(s.tasks[id]) == Some(psbt)
  }

  ghost predicate PayoutTraced(s: Trade) {
    && (s.row.Some? && s.row.value.payoutPsbt.Some? ==> AssembledBySomeone(s, s.row.value.payoutPsbt.value))
    && forall id :: id in s.tasks && Answer(s.tasks[id]).Some? ==> AssembledBySomeone(s, Answer(s.tasks[id]).value)
  }

  lemma StepTracesPayout(row: Option<TakenOffer>, t: Task, env: Env)
    requires !IsFinished(t)
    ensures var r := TaskStep(row, t, env);
      && (OwnPsbt(t).Some? ==> OwnPsbt(r.task) == OwnPsbt(t))
      && (r.row.Some? ==> row.Some?)
      && (r.row.Some? && r.row.value.payoutPsbt != row.value.payoutPsbt ==> r.row.value.payoutPsbt == OwnPsbt(t) != None)
      && (Answer(r.task).Some? ==>
            Answer(r.task) == OwnPsbt(t) || (row.Some? && Answer(r.task) == row.value.payoutPsbt))
      && (WasAdmitted(t) ==> WasAdmitted(r.task))
  {
  }

  lemma NextKeepsPayoutTraced(s: Trade, s': Trade)
    requires PayoutTraced(s) && Next(s, s')
    ensures PayoutTraced(s')
  {
    if id, t :| Arrives(s, s', id, t) {
      TracesSurvive(s, s', id);
    } else {
      var id, env :| Steps(s, s', id, env);
      StepTracesPayout(s.row, s.tasks[id], env);
      TracesSurvive(s, s', id);
      if OwnPsbt(s.tasks[id]).Some? {
        assert AssembledBySomeone(s, OwnPsbt(s.tasks[id]).value);
      }
    }
  }

  lemma TracesSurvive(s: Trade, s': Trade, id: nat)
    requires id in s'.tasks && s'.tasks == s.tasks[id := s'.tasks[id]]
    requires id in s.tasks && OwnPsbt(s.tasks[id]).Some? ==> OwnPsbt(s'.tasks[id]) == OwnPsbt(s.tasks[id])
    ensures forall p :: AssembledBySomeone(s, p) ==> AssembledBySomeone(s', p)
  {
    forall p | AssembledBySomeone(s, p) ensures AssembledBySomeone(s', p) {
      var j :| j in s.tasks && OwnPsbt(s.tasks[j]) == Some(p);
      assert j in s'.tasks && OwnPsbt(s'.tasks[j]) == Some(p);
    }
  }

  lemma ReachableTraced(s: Trade)
    requires Reachable(s)
    ensures PayoutTraced(s)
  {
    forall s, s' | PayoutTraced(s) && Next(s, s') ensures PayoutTraced(s') {
      NextKeepsPayoutTraced(s, s');
    }
    Runs.InvariantReachable(s, Init, Next, PayoutTraced);
  }

  /** No payout PSBT is invented: every one handed to a trader, and the stored one, was assembled
      by an admitted poller. So all answers agree whenever all assembled PSBTs do. */
  lemma AnswersWereAssembled(s: Trade, psbt: Hex)
    requires Reachable(s)
    requires (exists id :: id in s.tasks && Answer(s.tasks[id]) == Some(psbt))
      || (s.row.Some? && s.row.value.payoutPsbt == Some(psbt))
    ensures exists id :: id in s.tasks && WasAdmitted(s.tasks[id]) && OwnPsbt(s.tasks[id]) == Some(psbt)
  {
    ReachableTraced(s);
    assert AssembledBySomeone(s, psbt);
    var id :| id in s.tasks && OwnPsbt(s.tasks[id]) == Some(psbt);
    assert WasAdmitted(s.tasks[id]);
  }

  ghost predicate AtMostOneAdmitted(s: Trade) {
    forall i, j :: i in s.tasks && j in s.tasks && WasAdmitted(s.tasks[i]) && WasAdmitted(s.tasks[j]) ==> i == j
  }

  /** With a single admitted poller every answer ever given to either trader carries the same PSBT,
      which is also the stored one. */
  lemma AnswersAgree(s: Trade, i: nat, j: nat)
    requires Reachable(s) && AtMostOneAdmitted(s)
    requires i in s.tasks && Answer(s.tasks[i]).Some?
    requires j in s.tasks && Answer(s.tasks[j]).Some?
    ensures Answer(s.tasks[i]) == Answer(s.tasks[j])
    ensures s.row.Some? && s.row.value.payoutPsbt.Some? ==> s.row.value.payoutPsbt == Answer(s.tasks[i])
  {
    AnswersWereAssembled(s, Answer(s.tasks[i]).value);
    AnswersWereAssembled(s, Answer(s.tasks[j]).value);
    if s.row.Some? && s.row.value.payoutPsbt.Some? {
      AnswersWereAssembled(s, s.row.value.payoutPsbt.value);
    }
  }

  lemma NextKeepsStoredPsbt(s: Trade, s': Trade)
    requires Reachable(s) && Next(s, s') && AtMostOneAdmitted(s) && s'.row.Some?
    ensures s.row.Some? && (s.row.value.payoutPsbt.Some? ==> s'.row.value.payoutPsbt == s.row.value.payoutPsbt)
  {
    if s.row.Some? && s.row.value.payoutPsbt.Some? {
      AnswersWereAssembled(s, s.row.value.payoutPsbt.value);
    }
    if id, env :| Steps(s, s', id, env) {
      StepTracesPayout(s.row, s.tasks[id], env);
    }
  }

  lemma RunStepKeepsStoredPsbt(run: seq<Trade>, n: nat)
    requires IsRun(run) && n + 1 < |run| && AtMostOneAdmitted(run[n]) && run[n + 1].row.Some?
    ensures run[n].row.Some?
    ensures run[n].row.value.payoutPsbt.Some? ==> run[n + 1].row.value.payoutPsbt == run[n].row.value.payoutPsbt
  {
    Runs.RunStateReachable(run, Init, Next, n);
    assert Runs.StepAt(run, Next, n);
    NextKeepsStoredPsbt(run[n], run[n + 1]);
  }

  /** In every run with a single admitted poller the stored PSBT never changes once set. */
  lemma {:induction false} StoredPsbtFixed(run: seq<Trade>, i: nat, j: nat)
    requires IsRun(run) && i <= j < |run| && forall n :: i <= n < j ==> AtMostOneAdmitted(run[n])
    requires run[j].row.Some? && run[i].row.Some? && run[i].row.value.payoutPsbt.Some?
    ensures run[j].row.value.payoutPsbt == run[i].row.value.payoutPsbt
  {
    if i < j {
      RunStepKeepsStoredPsbt(run, j - 1);
      StoredPsbtFixed(run, i, j - 1);
    }
  }
}
