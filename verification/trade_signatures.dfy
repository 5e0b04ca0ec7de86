/** When the second partial signature leads to the payout, and when the trade is stranded. */
module TradeSignatures {
  import opened Types
  import opened Statements
  import opened Trade
  import Runs
  import opened TradeLock
  import opened TradeSlots
  import opened TradeCausality
  import opened TradeDrive

  /** A payout PSBT was stored or handed out by this task. */
  predicate SawPayout(t: Task) {
    t.PollTask? && (t.pollPc.Stored? || t.pollPc.Delivered? || t.pollPc.Served?)
  }

  ghost predicate PayoutKept(s: Trade) {
    s.row.Some? && (exists id :: id in s.tasks && SawPayout(s.tasks[id])) ==> s.row.value.payoutPsbt.Some?
  }

  lemma StepKeepsPayout(row: Option<TakenOffer>, t: Task, env: Env)
    requires !IsFinished(t)
    ensures var r := TaskStep(row, t, env);
      r.row.Some? ==>
        && row.Some?
        && (row.value.payoutPsbt.Some? ==> r.row.value.payoutPsbt.Some?)
        && (SawPayout(r.task) && !SawPayout(t) ==> r.row.value.payoutPsbt.Some?)
  {
  }

  lemma NextKeepsPayoutKept(s: Trade, s': Trade)
    requires PayoutKept(s) && Next(s, s')
    ensures PayoutKept(s')
  {
    if s'.row.Some? && exists j :: j in s'.tasks && SawPayout(s'.tasks[j]) {
      var j :| j in s'.tasks && SawPayout(s'.tasks[j]);
      if id, t :| Arrives(s, s', id, t) {
        assert j in s.tasks;
      } else {
        var id, env :| Steps(s, s', id, env);
        StepKeepsPayout(s.row, s.tasks[id], env);
        assert j in s.tasks;
      }
    }
  }

  /** Once any trader was handed a payout PSBT, the submission that reads both signatures goes on to
      broadcast exactly the two stored signatures with the stored PSBT, provided they decode. */
  lemma BothSignaturesReachBroadcast(s: Trade, id: nat, env: Env, answered: nat)
    requires Reachable(s) && s.row.Some? && id in s.tasks && s.tasks[id].SigTask? && s.tasks[id].sigPc.Written?
    requires Slot(s.row.value, PartialSigs, true).Some? && Slot(s.row.value, PartialSigs, false).Some?
    requires answered in s.tasks && Answer(s.tasks[answered]).Some?
    ensures s.row.value.payoutPsbt.Some?
    ensures var t' := TaskStep(s.row, s.tasks[id], env).task;
      if env.decodes
      then t'.sigPc.Context? && t'.sigPc.keyspend == Keyspend(
             Slot(s.row.value, PartialSigs, true).value, Slot(s.row.value, PartialSigs, false).value, s.row.value.payoutPsbt.value)
      else t'.sigPc.Undecodable?
  {
    forall s, s' | PayoutKept(s) && Next(s, s') ensures PayoutKept(s') {
      NextKeepsPayoutKept(s, s');
    }
    Runs.InvariantReachable(s, Init, Next, PayoutKept);
    assert SawPayout(s.tasks[answered]);
  }

  /** Both signatures are stored and no submission is left that could still read them. */
  ghost predicate Stranded(s: Trade) {
    && s.row.Some? && s.row.value.partialSigMaker.Some? && s.row.value.partialSigTaker.Some?
    && forall id :: id in s.tasks && s.tasks[id].SigTask? ==> PhaseOf(s.tasks[id]).NotYet? || IsFinished(s.tasks[id])
  }

  lemma RunKeepsStranded(run: seq<Trade>, n: nat)
    requires IsRun(run) && n + 1 < |run| && Stranded(run[n])
    ensures Stranded(run[n + 1]) && forall k :: KeyspendSent(k) in run[n + 1].log ==> KeyspendSent(k) in run[n].log
  {
    assert Runs.StepAt(run, Next, n);
    NextKeepsStranded(run[n], run[n + 1]);
  }

  /** A stranded trade is never paid out: no step of any later run sends a keyspend or deletes the
      row, since every further signature is refused. */
  lemma {:induction false} StrandedForGood(run: seq<Trade>, i: nat, j: nat)
    requires IsRun(run) && i <= j < |run| && Stranded(run[i])
    ensures Stranded(run[j])
    ensures forall k :: KeyspendSent(k) in run[j].log ==> KeyspendSent(k) in run[i].log
  {
    if i < j {
      StrandedForGood(run, i, j - 1);
      RunKeepsStranded(run, j - 1);
    }
  }

  lemma StepKeepsStranded(row: TakenOffer, t: Task, env: Env)
    requires !IsFinished(t) && (t.SigTask? ==> PhaseOf(t).NotYet?)
    requires row.partialSigMaker.Some? && row.partialSigTaker.Some?
    ensures var r := TaskStep(Some(row), t, env);
      && r.row.Some? && r.row.value.partialSigMaker.Some? && r.row.value.partialSigTaker.Some?
      && (r.task.SigTask? ==> PhaseOf(r.task).NotYet?)
      && forall k :: KeyspendSent(k) !in r.events
  {
  }

  lemma NextKeepsStranded(s: Trade, s': Trade)
    requires Stranded(s) && Next(s, s')
    ensures Stranded(s') && forall k :: KeyspendSent(k) in s'.log ==> KeyspendSent(k) in s.log
  {
    if id, env :| Steps(s, s', id, env) {
      StepKeepsStranded(s.row.value, s.tasks[id], env);
    }
  }

  /** A signature submission that waits for the other trader, or finds no payout PSBT. */
  lemma DriveEarlySignature(o: Trade, s: Trade, id: nat, isMaker: bool, sig: Hex) returns (s': Trade)
    requires Leads(o, s) && id !in s.tasks && s.row.Some? && s.row.value.confirmed == 1 && TradersDiffer(s.row.value.terms)
    requires s.row.value.payoutPsbt.None? && PartialSig(s.row.value, isMaker).None?
    ensures Leads(o, s') && s'.terms == s.terms && s'.row == Some(PutPartialSig(s.row.value, isMaker, sig)) && Keeps(s, s')
    ensures s'.tasks.Keys == s.tasks.Keys + {id} && s'.tasks[id].SigTask? && IsFinished(s'.tasks[id])
  {
    s' := DriveSigToWritten(o, s, id, isMaker, sig);
    s' := Do(o, s', id, QUIET);
  }

  /** Signing before any payout PSBT is stored is not refused, and strands the trade. */
  lemma EarlySignaturesStrand(terms: Terms, sigMaker: Hex, sigTaker: Hex) returns (s: Trade)
    requires TradersDiffer(terms)
    ensures Reachable(s) && s.terms == terms && Stranded(s)
  {
    var o := Begin(terms);
    s := DriveConfirmation(o, o, 0);
    s := DriveEarlySignature(o, s, 1, true, sigMaker);
    s := DriveEarlySignature(o, s, 2, false, sigTaker);
    Reached(o, s);
  }

  // ---- the payout is reachable unless the trade is stranded ----

  lemma KnownConfirmation(s: Trade)
    requires Reachable(s) && s.row.Some?
    ensures s.row.value.terms == s.terms && (s.row.value.confirmed == 0 || s.row.value.confirmed == 1)
  {
    ReachableCausal(s);
  }

  /** A confirmed row of different traders with a payout PSBT: what a signature needs. */
  predicate Payable(row: TakenOffer) {
    row.confirmed == 1 && row.payoutPsbt.Some? && TradersDiffer(row.terms)
  }

  predicate SameSignatures(row: TakenOffer, row': TakenOffer) {
    row'.partialSigMaker == row.partialSigMaker && row'.partialSigTaker == row.partialSigTaker
  }

  /** From any state with a row the row becomes payable, without touching a signature or a task. */
  lemma MakePayable(o: Trade, s: Trade) returns (s': Trade)
    requires Leads(o, s) && s.row.Some? && TradersDiffer(s.row.value.terms)
    requires s.row.value.confirmed == 0 || s.row.value.confirmed == 1
    ensures Leads(o, s') && Keeps(s, s') && s'.row.Some?
    ensures Payable(s'.row.value) && SameSignatures(s.row.value, s'.row.value)
  {
    s' := MakeHappy(o, s);
    if s.row.value.payoutPsbt.None? {
      var s1, id := Admit(o, s');
      s' := DriveAssembly(o, s1, id, "");
    }
  }

  /** A submission that has written, read both or broadcast. */
  predicate IsPending(t: Task) {
    t.SigTask? && (t.sigPc.Vacant? || t.sigPc.Written? || t.sigPc.Context? || t.sigPc.Broadcasted?)
  }

  /** A pending submission pays out, once both signatures are there. */
  lemma FinishPayout(o: Trade, s: Trade, id: nat) returns (s': Trade)
    requires Leads(o, s) && s.row.Some? && Payable(s.row.value) && id in s.tasks && IsPending(s.tasks[id])
    requires s.row.value.partialSigMaker.Some? && s.row.value.partialSigTaker.Some?
    ensures Leads(o, s') && s'.row.None?
  {
    s' := s;
    if s'.tasks[id].sigPc.Vacant? {
      s' := Do(o, s', id, QUIET);
    }
    if s'.tasks[id].sigPc.Written? {
      s' := Do(o, s', id, QUIET);
    }
    if s'.tasks[id].sigPc.Context? {
      s' := Do(o, s', id, QUIET);
    }
    s' := Do(o, s', id, QUIET);
  }

  /** A missing signature is handed in, and its submission is pending. */
  lemma HandIn(o: Trade, s: Trade, isMaker: bool) returns (s': Trade, id: nat)
    requires Leads(o, s) && s.row.Some? && Payable(s.row.value) && PartialSig(s.row.value, isMaker).None?
    ensures Leads(o, s') && s'.row == Some(PutPartialSig(s.row.value, isMaker, ""))
    ensures id in s'.tasks && IsPending(s'.tasks[id])
  {
    id := Fresh(s);
    s' := DriveSigToWritten(o, s, id, isMaker, "");
  }

  lemma PayOut(o: Trade, s: Trade) returns (s': Trade)
    requires Leads(o, s) && s.row.Some? && Payable(s.row.value) && !Stranded(s)
    ensures Leads(o, s') && s'.row.None?
  {
    s' := s;
    var id: nat;
    if s.row.value.partialSigMaker.Some? && s.row.value.partialSigTaker.Some? {
      id :| id in s.tasks && s.tasks[id].SigTask? && !PhaseOf(s.tasks[id]).NotYet? && !IsFinished(s.tasks[id]);
    }
    if s.row.value.partialSigMaker.None? {
      s', id := HandIn(o, s', true);
    }
    if s.row.value.partialSigTaker.None? {
      s', id := HandIn(o, s', false);
    }
    s' := FinishPayout(o, s', id);
  }

  /** A trade can still be paid out exactly when it is not stranded: some continuation deletes the
      row, having broadcast the keyspend it deletes it for. */
  lemma PaidOutIffNotStranded(s: Trade)
    requires Reachable(s) && TradersDiffer(s.terms)
    ensures (exists s' :: Leads(s, s') && Completed(s')) <==> !Stranded(s)
  {
    Runs.StaysPut(s, Next);
    if s.row.None? {
      GoneRowWasPaidOut(s);
      assert Completed(s);
    } else if Stranded(s) {
      forall s' | Leads(s, s') ensures !Completed(s') {
        forall u, u' | Stranded(u) && Next(u, u') ensures Stranded(u') {
          NextKeepsStranded(u, u');
        }
        Runs.InvariantContinues(s, s', Next, Stranded);
      }
    } else {
      KnownConfirmation(s);
      var s1 := MakePayable(s, s);
      StrandedLooksAtPending(s, s1);
      var s2 := PayOut(s, s1);
      Reached(s, s2);
      GoneRowWasPaidOut(s2);
    }
  }

  ghost predicate Completed(s: Trade) {
    s.row.None? && exists k :: KeyspendSent(k) in s.log && Deleted(k) in s.log
  }

  lemma StrandedLooksAtPending(s: Trade, s': Trade)
    requires s.row.Some? && s'.row.Some? && SameSignatures(s.row.value, s'.row.value) && Keeps(s, s')
    ensures Stranded(s') ==> Stranded(s)
  {
  }

  /** Every trade of two different traders can be completed: a run ends in its deletion. */
  lemma SomeRunPaysOut(terms: Terms) returns (s: Trade)
    requires TradersDiffer(terms)
    ensures Reachable(s) && s.terms == terms && Completed(s)
  {
    var o := Begin(terms);
    Reached(o, o);
    PaidOutIffNotStranded(o);
    s :| Leads(o, s) && Completed(s);
    Reached(o, s);
    TermsStay(o, s);
  }

  lemma TermsStay(s: Trade, s': Trade)
    requires Leads(s, s')
    ensures s'.terms == s.terms
  {
    Runs.InvariantContinues(s, s', Next, (u: Trade) => u.terms == s.terms);
  }
}
