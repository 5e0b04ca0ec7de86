/** When the traders are bound to be handed the same payout PSBT, exactly. */
module TradeAgreement {
  import opened Types
  import opened Statements
  import opened Trade
  import Runs
  import opened TradeLock
  import opened TradeDrive
  import TradeSignatures

  /** All answers given so far are the same PSBT. */
  ghost predicate AnswersSame(s: Trade) {
    forall i, j :: i in s.tasks && j in s.tasks && Answer(s.tasks[i]).Some? && Answer(s.tasks[j]).Some? ==>
      Answer(s.tasks[i]) == Answer(s.tasks[j])
  }

  /** The stored PSBT, while there is a row, and every answer is this one. */
  ghost predicate Carries(s: Trade, psbt: Hex) {
    && (s.row.Some? ==> s.row.value.payoutPsbt == Some(psbt))
    && forall id :: id in s.tasks && Answer(s.tasks[id]).Some? ==> Answer(s.tasks[id]) == Some(psbt)
  }

  predicate AtNoPsbt(t: Task) {
    t.PollTask? && t.pollPc.NoPsbt?
  }

  predicate IsAdmitted(t: Task) {
    t.PollTask? && t.pollPc.Admitted?
  }

  /** A poll that will still flip the lock. */
  predicate WillToggle(t: Task) {
    t.PollTask? && (t.pollPc.NoPsbt? || t.pollPc.Assembled? || t.pollPc.Stored?)
  }

  /** The PSBT a poll has assembled and not handed out yet. */
  function InHand(t: Task): Option<Hex> {
    if t.PollTask? && (t.pollPc.Assembled? || t.pollPc.Stored?) then Some(t.pollPc.psbt) else None
  }

  /** A poll that found no PSBT meets the lock taken, and nobody else will release it. */
  ghost predicate ShutOut(s: Trade, id: nat) {
    s.row.Some? ==>
      && s.row.value.processing != 0
      && forall j :: j in s.tasks && j != id ==> !WillToggle(s.tasks[j])
  }

  /** What can be read off the state: nobody is assembling, nobody holds or was given another PSBT,
      and no poll that found none can still be admitted. */
  ghost predicate Settled(s: Trade, psbt: Hex) {
    && Carries(s, psbt)
    && (forall id :: id in s.tasks ==> !IsAdmitted(s.tasks[id]))
    && (forall id :: id in s.tasks && InHand(s.tasks[id]).Some? ==> InHand(s.tasks[id]) == Some(psbt))
    && (forall id :: id in s.tasks && AtNoPsbt(s.tasks[id]) ==> ShutOut(s, id))
  }

  /** What one step of a task does to the payout PSBT and the lock, where nobody is assembling. */
  lemma StepWhenSettled(row: Option<TakenOffer>, t: Task, env: Env, psbt: Hex)
    requires !IsFinished(t) && !IsAdmitted(t) && (InHand(t).Some? ==> InHand(t) == Some(psbt))
    requires row.Some? ==> row.value.payoutPsbt == Some(psbt)
    requires AtNoPsbt(t) && row.Some? ==> row.value.processing != 0
    ensures var r := TaskStep(row, t, env);
      && (r.row.Some? ==> row.Some? && r.row.value.payoutPsbt == Some(psbt))
      && (Answer(r.task).Some? ==> Answer(r.task) == Some(psbt))
      && !IsAdmitted(r.task) && !AtNoPsbt(r.task) && (InHand(r.task).Some? ==> InHand(r.task) == Some(psbt))
      && (WillToggle(r.task) ==> WillToggle(t))
      && (r.row.Some? && !WillToggle(t) ==> r.row.value.processing == row.value.processing)
      && (r.row.Some? && InHand(t).Some? && t.pollPc.Assembled? ==> r.row.value.processing == row.value.processing)
  {
  }

  lemma NextKeepsSettled(s: Trade, s': Trade, psbt: Hex)
    requires Settled(s, psbt) && Next(s, s')
    ensures Settled(s', psbt)
  {
    if id, env :| Steps(s, s', id, env) {
      StepWhenSettled(s.row, s.tasks[id], env, psbt);
      forall j | j in s'.tasks && AtNoPsbt(s'.tasks[j]) ensures ShutOut(s', j) {
        assert j != id && ShutOut(s, j);
      }
    }
  }

  lemma SettledForGood(s: Trade, s': Trade, psbt: Hex)
    requires Settled(s, psbt) && Leads(s, s')
    ensures Settled(s', psbt) && AnswersSame(s')
  {
    forall u, u' | Settled(u, psbt) && Next(u, u') ensures Settled(u', psbt) {
      NextKeepsSettled(u, u', psbt);
    }
    Runs.InvariantContinues(s, s', Next, u => Settled(u, psbt));
  }

  // ---- otherwise the answers can disagree ----

  function Other(psbt: Hex): (q: Hex)
    ensures q != psbt
  {
    psbt + "0"
  }

  /** Somebody was given another PSBT than this one. */
  ghost predicate GaveAnother(s: Trade, psbt: Hex) {
    exists id :: id in s.tasks && Answer(s.tasks[id]).Some? && Answer(s.tasks[id]) != Some(psbt)
  }

  /** The stored PSBT is another one; the signatures are the same. */
  predicate StoresAnother(row: TakenOffer, row': TakenOffer, psbt: Hex) {
    && row'.payoutPsbt.Some? && row'.payoutPsbt != Some(psbt)
    && row'.partialSigMaker == row.partialSigMaker && row'.partialSigTaker == row.partialSigTaker
  }

  /** Tasks that are no polls, and polls that are answered, stay as they are. */
  ghost predicate KeepsOthers(s: Trade, s': Trade) {
    forall j :: j in s.tasks && (s.tasks[j].PollTask? ==> s.tasks[j].pollPc.Served?) ==>
      j in s'.tasks && s'.tasks[j] == s.tasks[j]
  }

  lemma AdmittedGivesAnother(o: Trade, s: Trade, id: nat, psbt: Hex) returns (s': Trade)
    requires Leads(o, s) && s.row.Some? && id in s.tasks && IsAdmitted(s.tasks[id])
    ensures Leads(o, s') && GaveAnother(s', psbt)
    ensures s'.row.Some? && StoresAnother(s.row.value, s'.row.value, psbt)
    ensures forall j :: j in s.tasks && j != id ==> j in s'.tasks && s'.tasks[j] == s.tasks[j]
  {
    s' := DriveAssembly(o, s, id, Other(psbt));
    assert Answer(s'.tasks[id]) == Some(Other(psbt));
  }

  /** The rest of a poll that holds a PSBT; it flips the lock once. */
  lemma HandOver(o: Trade, s: Trade, id: nat) returns (s': Trade)
    requires Leads(o, s) && s.row.Some? && id in s.tasks && InHand(s.tasks[id]).Some?
    ensures Leads(o, s') && s'.row.Some? && s'.row.value.processing == Toggle(s.row.value).processing
    ensures s'.row.value.partialSigMaker == s.row.value.partialSigMaker
    ensures s'.row.value.partialSigTaker == s.row.value.partialSigTaker
    ensures s.tasks[id].pollPc.Assembled? ==> s'.row.value.payoutPsbt == InHand(s.tasks[id])
    ensures s'.tasks == s.tasks[id := s.tasks[id].(pollPc := PollPc.Delivered(s.tasks[id].pollPc.psbt))]
  {
    if s.tasks[id].pollPc.Assembled? {
      s' := DriveStore(o, s, id);
    } else {
      s' := Do(o, s, id, QUIET);
    }
  }

  /** A poll that found no PSBT is admitted after at most one other flip of the lock. */
  lemma NoPsbtGivesAnother(o: Trade, s: Trade, id: nat, psbt: Hex) returns (s': Trade)
    requires Leads(o, s) && s.row.Some? && id in s.tasks && AtNoPsbt(s.tasks[id]) && !ShutOut(s, id)
    ensures Leads(o, s') && GaveAnother(s', psbt)
    ensures s'.row.Some? && StoresAnother(s.row.value, s'.row.value, psbt) && KeepsOthers(s, s')
  {
    var s1 := s;
    if s.row.value.processing != 0 {
      var j :| j in s.tasks && j != id && WillToggle(s.tasks[j]);
      if AtNoPsbt(s.tasks[j]) {
        s1 := Do(o, s, j, QUIET);
      } else {
        s1 := HandOver(o, s, j);
      }
    }
    var s2 := Do(o, s1, id, QUIET);
    s' := AdmittedGivesAnother(o, s2, id, psbt);
  }

  /** From an unsettled state with a stored PSBT somebody can be given another one. */
  lemma UnsettledGivesAnother(o: Trade, s: Trade, psbt: Hex) returns (s': Trade)
    requires Leads(o, s) && s.row.Some? && s.row.value.payoutPsbt == Some(psbt) && !Settled(s, psbt)
    ensures Leads(o, s') && GaveAnother(s', psbt)
    ensures KeepsOthers(s, s')
  {
    if GaveAnother(s, psbt) {
      s' := s;
    } else if id :| id in s.tasks && IsAdmitted(s.tasks[id]) {
      s' := AdmittedGivesAnother(o, s, id, psbt);
    } else if id :| id in s.tasks && InHand(s.tasks[id]).Some? && InHand(s.tasks[id]) != Some(psbt) {
      s' := HandOver(o, s, id);
      assert Answer(s'.tasks[id]) == InHand(s.tasks[id]);
    } else {
      var id :| id in s.tasks && AtNoPsbt(s.tasks[id]) && !ShutOut(s, id);
      s' := NoPsbtGivesAnother(o, s, id, psbt);
    }
  }

  lemma SettledLooksBack(s: Trade, s': Trade, psbt: Hex)
    requires s.row.Some? && s'.row.Some? && Keeps(s, s')
    requires s'.row.value.processing == s.row.value.processing && s'.row.value.payoutPsbt == s.row.value.payoutPsbt
    ensures Settled(s', psbt) ==> Settled(s, psbt)
  {
  }

  /** A stored PSBT that is not settled: a new poll is served it, and then somebody is given another. */
  lemma UnsettledDisagrees(o: Trade, s: Trade, psbt: Hex) returns (s': Trade)
    requires Leads(o, s) && s.row.Some? && TradersDiffer(s.row.value.terms)
    requires s.row.value.confirmed == 0 || s.row.value.confirmed == 1
    requires s.row.value.payoutPsbt == Some(psbt) && !Settled(s, psbt)
    ensures Leads(o, s') && !AnswersSame(s')
  {
    var s1 := MakeHappy(o, s);
    var id := Fresh(s1);
    var s2 := DrivePollToRead(o, s1, id);
    SettledLooksBack(s, s2, psbt);
    s' := UnsettledGivesAnother(o, s2, psbt);
    assert Answer(s'.tasks[id]) == Some(psbt);
  }

  /** No PSBT stored: two polls read that, and both are admitted in turn. */
  lemma NothingStoredDisagrees(o: Trade, s: Trade) returns (s': Trade)
    requires Leads(o, s) && s.row.Some? && TradersDiffer(s.row.value.terms) && s.row.value.payoutPsbt.None?
    requires s.row.value.confirmed == 0 || s.row.value.confirmed == 1
    ensures Leads(o, s') && !AnswersSame(s')
  {
    var s1 := MakeHappy(o, s);
    var late := Fresh(s1);
    var s2 := DrivePollToRead(o, s1, late);
    var s3, first := Admit(o, s2);
    var s4 := DriveAssembly(o, s3, first, "");
    var s5 := Do(o, s4, late, QUIET);
    s' := DriveAssembly(o, s5, late, Other(""));
    assert Answer(s'.tasks[first]) == Some("") && Answer(s'.tasks[late]) == Some(Other(""));
  }

  ghost predicate GoneAndSame(s: Trade) {
    s.row.None? && AnswersSame(s)
  }

  lemma NextKeepsGoneAndSame(s: Trade, s': Trade)
    requires GoneAndSame(s) && Next(s, s')
    ensures GoneAndSame(s')
  {
    if id, env :| Steps(s, s', id, env) {
      GoneRowAnswersNobody(s.tasks[id], env);
    }
  }

  lemma GoneRowAnswersNobody(t: Task, env: Env)
    requires !IsFinished(t)
    ensures var r := TaskStep(None, t, env); r.row.None? && Answer(r.task).None?
  {
  }

  /** Agreement on the payout PSBT, exactly: the traders will never be handed different PSBTs,
      whatever happens next, when and only when a PSBT is stored and the state is settled on it, or
      the row is gone and they have not been yet. */
  lemma AgreementIffSettled(s: Trade)
    requires Reachable(s) && TradersDiffer(s.terms)
    ensures (forall s' :: Leads(s, s') ==> AnswersSame(s')) <==>
      if s.row.None? then AnswersSame(s)
      else s.row.value.payoutPsbt.Some? && Settled(s, s.row.value.payoutPsbt.value)
  {
    Runs.StaysPut(s, Next);
    if s.row.None? {
      forall s' | AnswersSame(s) && Leads(s, s') ensures AnswersSame(s') {
        forall u, u' | GoneAndSame(u) && Next(u, u') ensures GoneAndSame(u') {
          NextKeepsGoneAndSame(u, u');
        }
        Runs.InvariantContinues(s, s', Next, GoneAndSame);
      }
    } else {
      RowAgreementIffSettled(s);
    }
  }

  lemma RowAgreementIffSettled(s: Trade)
    requires Reachable(s) && s.row.Some? && TradersDiffer(s.terms)
    ensures (forall s' :: Leads(s, s') ==> AnswersSame(s'))
      <==> s.row.value.payoutPsbt.Some? && Settled(s, s.row.value.payoutPsbt.value)
  {
    TradeSignatures.KnownConfirmation(s);
    Runs.StaysPut(s, Next);
    var stored := s.row.value.payoutPsbt;
    if stored.None? {
      var s' := NothingStoredDisagrees(s, s);
    } else if !Settled(s, stored.value) {
      var s' := UnsettledDisagrees(s, s, stored.value);
    } else {
      forall s' | Leads(s, s') ensures AnswersSame(s') {
        SettledForGood(s, s', stored.value);
      }
    }
  }

  /** The stored PSBT, exactly: every continuation keeps it and answers nothing else when and only
      when the state is settled on it. */
  lemma StoredPsbtStaysIffSettled(s: Trade, psbt: Hex)
    requires s.row.Some? && s.row.value.payoutPsbt == Some(psbt)
    ensures (forall s' :: Leads(s, s') ==> Carries(s', psbt)) <==> Settled(s, psbt)
  {
    if Settled(s, psbt) {
      forall s' | Leads(s, s') ensures Carries(s', psbt) {
        SettledForGood(s, s', psbt);
      }
    } else {
      Runs.StaysPut(s, Next);
      var s' := UnsettledGivesAnother(s, s, psbt);
      assert Leads(s, s') && !Carries(s', psbt);
    }
  }
}
