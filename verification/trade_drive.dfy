/** Continuations of a trade, built step by step: `o` is the state a continuation starts from, and
    each lemma takes it some steps further. */
module TradeDrive {
  import opened Types
  import opened Statements
  import opened Trade
  import Runs

  /** An environment in which every outside call succeeds. */
  const QUIET := Env(true, Some(""), true, true, true, Some(4), true)

  lemma Start(o: Trade, s: Trade, id: nat, t: Task) returns (s': Trade)
    requires Leads(o, s) && id !in s.tasks && IsNew(t)
    ensures Leads(o, s') && s' == s.(tasks := s.tasks[id := t])
  {
    s' := s.(tasks := s.tasks[id := t]);
    assert Arrives(s, s', id, t);
    Runs.GoesOn(o, s, s', Next);
  }

  lemma Do(o: Trade, s: Trade, id: nat, env: Env) returns (s': Trade)
    requires Leads(o, s) && id in s.tasks && !IsFinished(s.tasks[id])
    ensures Leads(o, s') && s'.terms == s.terms
    ensures var r := TaskStep(s.row, s.tasks[id], env); s'.row == r.row && s'.tasks == s.tasks[id := r.task]
  {
    var r := TaskStep(s.row, s.tasks[id], env);
    s' := s.(row := r.row, tasks := s.tasks[id := r.task], log := s.log + r.events);
    assert Steps(s, s', id, env);
    Runs.GoesOn(o, s, s', Next);
  }

  /** A trade as it is when its row is inserted. */
  lemma Begin(terms: Terms) returns (s: Trade)
    ensures Init(s) && Leads(s, s) && s.row == Some(FreshRow(terms)) && s.tasks == map[] && s.terms == terms
  {
    s := Trade(terms, Some(FreshRow(terms)), map[], []);
    Runs.StaysPut(s, Next);
  }

  lemma Reached(o: Trade, s: Trade)
    requires Leads(o, s) && (Init(o) || Reachable(o))
    ensures Reachable(s)
  {
    if Init(o) {
      assert Runs.IsRun([o], Init, Next) && [o][|[o]| - 1] == o;
    }
    Runs.StaysReachable(o, s, Init, Next);
  }

  lemma {:induction false} Bounded(ids: set<nat>) returns (n: nat)
    ensures forall id :: id in ids ==> id < n
    decreases ids
  {
    if ids == {} {
      n := 0;
    } else {
      var id :| id in ids;
      var m := Bounded(ids - {id});
      n := if m > id then m else id + 1;
      assert forall x :: x in ids ==> x == id || x in ids - {id};
    }
  }

  lemma Fresh(s: Trade) returns (id: nat)
    ensures id !in s.tasks
  {
    id := Bounded(s.tasks.Keys);
  }

  /** The tasks of `s` are as they were. */
  ghost predicate Keeps(s: Trade, s': Trade) {
    forall id :: id in s.tasks ==> id in s'.tasks && s'.tasks[id] == s.tasks[id]
  }

  predicate TradersDiffer(terms: Terms) {
    terms.robohashMaker != terms.robohashTaker
  }

  // ---- confirmation and happiness ----

  lemma DriveConfirmation(o: Trade, s: Trade, id: nat) returns (s': Trade)
    requires Leads(o, s) && id !in s.tasks && s.row.Some? && s.row.value.confirmed == 0
    ensures Leads(o, s') && s'.terms == s.terms && s'.row == Some(s.row.value.(confirmed := 1))
    ensures s'.tasks == s.tasks[id := ConfirmTask(s.row.value.terms.escrow.txid, ConfirmPc.Finished)]
  {
    s' := Start(o, s, id, ConfirmTask(s.row.value.terms.escrow.txid, ConfirmPc.Arrived));
    s' := Do(o, s', id, QUIET);
    s' := Do(o, s', id, QUIET);
    s' := Do(o, s', id, QUIET);
  }

  lemma DriveHappy(o: Trade, s: Trade, id: nat, isMaker: bool) returns (s': Trade)
    requires Leads(o, s) && id !in s.tasks && s.row.Some? && s.row.value.confirmed == 1 && TradersDiffer(s.row.value.terms)
    ensures Leads(o, s') && s'.terms == s.terms && s'.row == Some(PutHappy(s.row.value, isMaker, true))
    ensures s'.tasks == s.tasks[id := HappyTask(TraderId(s.row.value.terms, isMaker), true, HappyPc.Recorded(isMaker))]
  {
    s' := Start(o, s, id, HappyTask(TraderId(s.row.value.terms, isMaker), true, HappyPc.Arrived));
    s' := Do(o, s', id, QUIET);
    s' := Do(o, s', id, QUIET);
    s' := Do(o, s', id, QUIET);
    s' := Do(o, s', id, QUIET);
  }

  /** The row with the escrow confirmed and both traders happy. */
  function MadeHappy(row: TakenOffer): TakenOffer {
    row.(confirmed := 1, makerHappy := Some(1), takerHappy := Some(1))
  }

  lemma MakeConfirmed(o: Trade, s: Trade) returns (s': Trade)
    requires Leads(o, s) && s.row.Some? && (s.row.value.confirmed == 0 || s.row.value.confirmed == 1)
    ensures Leads(o, s') && Keeps(s, s') && s'.terms == s.terms && s'.row == Some(s.row.value.(confirmed := 1))
  {
    if s.row.value.confirmed == 1 {
      s' := s;
    } else {
      var id := Fresh(s);
      s' := DriveConfirmation(o, s, id);
    }
  }

  /** From any state the escrow can be confirmed and both traders can become happy. */
  lemma MakeHappy(o: Trade, s: Trade) returns (s': Trade)
    requires Leads(o, s) && s.row.Some? && TradersDiffer(s.row.value.terms)
    requires s.row.value.confirmed == 0 || s.row.value.confirmed == 1
    ensures Leads(o, s') && Keeps(s, s') && s'.terms == s.terms && s'.row == Some(MadeHappy(s.row.value))
  {
    var s1 := MakeConfirmed(o, s);
    var maker := Fresh(s1);
    var s2 := DriveHappy(o, s1, maker, true);
    var taker := Fresh(s2);
    s' := DriveHappy(o, s2, taker, false);
  }

  // ---- polls ----

  predicate AreHappy(row: TakenOffer) {
    HappyTrue(row.makerHappy) && HappyTrue(row.takerHappy)
  }

  lemma DrivePollToData(o: Trade, s: Trade, id: nat) returns (s': Trade)
    requires Leads(o, s) && id !in s.tasks && s.row.Some? && AreHappy(s.row.value)
    ensures Leads(o, s') && s'.terms == s.terms && s'.row == s.row
    ensures s'.tasks == s.tasks[id := PollTask("", PollPc.DataRead)]
  {
    s' := Start(o, s, id, PollTask("", PollPc.Arrived));
    s' := Do(o, s', id, QUIET);
    s' := Do(o, s', id, QUIET);
  }

  /** A poll that reads two happy traders and then the payout column. */
  lemma DrivePollToRead(o: Trade, s: Trade, id: nat) returns (s': Trade)
    requires Leads(o, s) && id !in s.tasks && s.row.Some? && AreHappy(s.row.value)
    ensures Leads(o, s') && s'.terms == s.terms && s'.row == s.row
    ensures s'.tasks == s.tasks[id := PollTask("",
      if s.row.value.payoutPsbt.Some? then PollPc.Served(s.row.value.payoutPsbt.value) else PollPc.NoPsbt)]
  {
    s' := DrivePollToData(o, s, id);
    s' := Do(o, s', id, QUIET);
  }

  /** The same poll up to its first toggle. */
  lemma DrivePoll(o: Trade, s: Trade, id: nat) returns (s': Trade)
    requires Leads(o, s) && id !in s.tasks && s.row.Some? && AreHappy(s.row.value) && s.row.value.payoutPsbt.None?
    ensures Leads(o, s') && s'.terms == s.terms && s'.row == Some(Toggle(s.row.value))
    ensures s'.tasks == s.tasks[id := PollTask("", if s.row.value.processing == 0 then PollPc.Admitted else PollPc.TurnedAway)]
  {
    s' := DrivePollToRead(o, s, id);
    s' := Do(o, s', id, QUIET);
  }

  /** The rest of an admitted poll that assembles `psbt`. */
  lemma DriveAssembly(o: Trade, s: Trade, id: nat, psbt: Hex) returns (s': Trade)
    requires Leads(o, s) && id in s.tasks && s.tasks[id].PollTask? && s.tasks[id].pollPc.Admitted? && s.row.Some?
    ensures Leads(o, s') && s'.terms == s.terms && s'.row == Some(Toggle(PutPayoutPsbt(s.row.value, psbt)))
    ensures s'.tasks == s.tasks[id := s.tasks[id].(pollPc := PollPc.Delivered(psbt))]
  {
    s' := Do(o, s, id, QUIET.(assembled := Some(psbt)));
    s' := DriveStore(o, s', id);
  }

  /** The rest of a poll that has assembled its PSBT. */
  lemma DriveStore(o: Trade, s: Trade, id: nat) returns (s': Trade)
    requires Leads(o, s) && id in s.tasks && s.tasks[id].PollTask? && s.tasks[id].pollPc.Assembled? && s.row.Some?
    ensures var psbt := s.tasks[id].pollPc.psbt;
      && Leads(o, s') && s'.terms == s.terms && s'.row == Some(Toggle(PutPayoutPsbt(s.row.value, psbt)))
      && s'.tasks == s.tasks[id := s.tasks[id].(pollPc := PollPc.Delivered(psbt))]
  {
    s' := Do(o, s, id, QUIET);
    s' := Do(o, s', id, QUIET);
  }

  /** While there is no payout PSBT a fresh poll can be admitted, after another one if need be. */
  lemma Admit(o: Trade, s: Trade) returns (s': Trade, id: nat)
    requires Leads(o, s) && s.row.Some? && AreHappy(s.row.value) && s.row.value.payoutPsbt.None?
    ensures Leads(o, s') && Keeps(s, s') && s'.terms == s.terms && s'.row == Some(s.row.value.(processing := 1))
    ensures id !in s.tasks && id in s'.tasks && s'.tasks[id] == PollTask("", PollPc.Admitted)
  {
    s' := s;
    if s.row.value.processing != 0 {
      var away := Fresh(s);
      s' := DrivePoll(o, s, away);
    }
    id := Fresh(s');
    s' := DrivePoll(o, s', id);
  }

  // ---- submissions ----

  lemma DriveSigToRole(o: Trade, s: Trade, id: nat, isMaker: bool, sig: Hex) returns (s': Trade)
    requires Leads(o, s) && id !in s.tasks && s.row.Some? && s.row.value.confirmed == 1 && TradersDiffer(s.row.value.terms)
    ensures Leads(o, s') && s'.terms == s.terms && s'.row == s.row
    ensures s'.tasks == s.tasks[id := SigTask(TraderId(s.row.value.terms, isMaker), sig, SigPc.Role(isMaker))]
  {
    s' := Start(o, s, id, SigTask(TraderId(s.row.value.terms, isMaker), sig, SigPc.Arrived));
    s' := Do(o, s', id, QUIET);
    s' := Do(o, s', id, QUIET);
    s' := Do(o, s', id, QUIET);
  }

  /** A signature submission that has seen its slot empty. */
  lemma DriveSigToCheck(o: Trade, s: Trade, id: nat, isMaker: bool, sig: Hex) returns (s': Trade)
    requires Leads(o, s) && id !in s.tasks && s.row.Some? && s.row.value.confirmed == 1 && TradersDiffer(s.row.value.terms)
    requires PartialSig(s.row.value, isMaker).None?
    ensures Leads(o, s') && s'.terms == s.terms && s'.row == s.row
    ensures s'.tasks == s.tasks[id := SigTask(TraderId(s.row.value.terms, isMaker), sig, SigPc.Vacant(isMaker))]
  {
    s' := DriveSigToRole(o, s, id, isMaker, sig);
    s' := Do(o, s', id, QUIET);
  }

  /** A signature submission that has filled its slot. */
  lemma DriveSigToWritten(o: Trade, s: Trade, id: nat, isMaker: bool, sig: Hex) returns (s': Trade)
    requires Leads(o, s) && id !in s.tasks && s.row.Some? && s.row.value.confirmed == 1 && TradersDiffer(s.row.value.terms)
    requires PartialSig(s.row.value, isMaker).None?
    ensures Leads(o, s') && s'.terms == s.terms && s'.row == Some(PutPartialSig(s.row.value, isMaker, sig))
    ensures s'.tasks == s.tasks[id := SigTask(TraderId(s.row.value.terms, isMaker), sig, SigPc.Written(isMaker))]
  {
    s' := DriveSigToCheck(o, s, id, isMaker, sig);
    s' := Do(o, s', id, QUIET);
  }

  /** A PSBT submission that has seen its slot empty. */
  lemma DrivePsbtToCheck(o: Trade, s: Trade, id: nat, isMaker: bool, psbt: Hex) returns (s': Trade)
    requires Leads(o, s) && id !in s.tasks && s.row.Some? && TradersDiffer(s.row.value.terms)
    requires SignedPsbt(s.row.value, isMaker).None?
    ensures Leads(o, s') && s'.terms == s.terms && s'.row == s.row
    ensures s'.tasks == s.tasks[id := PsbtTask(TraderId(s.row.value.terms, isMaker), psbt, PsbtPc.Vacant(isMaker))]
  {
    s' := Start(o, s, id, PsbtTask(TraderId(s.row.value.terms, isMaker), psbt, PsbtPc.Arrived));
    s' := Do(o, s', id, QUIET);
    s' := Do(o, s', id, QUIET);
    s' := Do(o, s', id, QUIET);
  }
}
