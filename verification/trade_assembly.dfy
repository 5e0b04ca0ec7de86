/** When two pollers can still be assembling at the same time, exactly. */
module TradeAssembly {
  import opened Types
  import opened Statements
  import opened Trade
  import Runs
  import opened TradeLock
  import opened TradeAgreement
  import opened TradeDrive
  import TradeSignatures

  /** A poll that has assembled and will toggle back. */
  predicate IsHolding(t: Task) {
    InHand(t).Some?
  }

  ghost function AdmittedCount(s: Trade): nat { |Having(s.tasks, IsAdmitted)| }

  ghost function NoPsbtCount(s: Trade): nat { |Having(s.tasks, AtNoPsbt)| }

  ghost function HoldingCount(s: Trade): nat { |Having(s.tasks, IsHolding)| }

  /** Whether `admitted` assembling pollers can become two, given how many polls found no PSBT, how
      many will toggle back and whether the lock is taken: each admission needs a poll that found no
      PSBT and a free lock, and each freeing of the lock another poll of either kind. */
  predicate CanBeTwo(admitted: nat, noPsbt: nat, holding: nat, processing: int) {
    || admitted >= 2
    || (admitted == 1 && noPsbt >= 1 && (processing == 0 || noPsbt + holding >= 2))
    || (admitted == 0 && noPsbt >= 2 && noPsbt + holding >= if processing == 0 then 3 else 4)
  }

  ghost predicate TwoPossible(s: Trade) {
    if s.row.None? then AdmittedCount(s) >= 2
    else CanBeTwo(AdmittedCount(s), NoPsbtCount(s), HoldingCount(s), s.row.value.processing)
  }

  ghost predicate LockKnown(s: Trade) {
    s.row.Some? ==> s.row.value.processing == 0 || s.row.value.processing == 1
  }

  /** A PSBT is stored, and two pollers cannot be assembling. */
  ghost predicate NeverTwo(s: Trade) {
    LockKnown(s) && (s.row.Some? ==> s.row.value.payoutPsbt.Some?) && !TwoPossible(s)
  }

  function One(b: bool): int {
    if b then 1 else 0
  }

  lemma CountsAfter(s: Trade, s': Trade, id: nat)
    requires id in s'.tasks && s'.tasks == s.tasks[id := s'.tasks[id]]
    ensures AdmittedCount(s') == AdmittedCount(s) - Counts(s.tasks, id, IsAdmitted) + One(IsAdmitted(s'.tasks[id]))
    ensures NoPsbtCount(s') == NoPsbtCount(s) - Counts(s.tasks, id, AtNoPsbt) + One(AtNoPsbt(s'.tasks[id]))
    ensures HoldingCount(s') == HoldingCount(s) - Counts(s.tasks, id, IsHolding) + One(IsHolding(s'.tasks[id]))
  {
    HavingAfter(s.tasks, id, s'.tasks[id], IsAdmitted);
    HavingAfter(s.tasks, id, s'.tasks[id], AtNoPsbt);
    HavingAfter(s.tasks, id, s'.tasks[id], IsHolding);
  }

  /** What one step of a task does to its kind and to the lock once a PSBT is stored. */
  lemma StepOnceStored(row: Option<TakenOffer>, t: Task, env: Env)
    requires !IsFinished(t)
    requires row.Some? ==> row.value.payoutPsbt.Some? && (row.value.processing == 0 || row.value.processing == 1)
    ensures var r := TaskStep(row, t, env);
      && (r.row.Some? ==> row.Some? && r.row.value.payoutPsbt.Some?)
      && !AtNoPsbt(r.task)
      && (IsAdmitted(r.task) ==> AtNoPsbt(t) && row.Some? && row.value.processing == 0)
      && (IsHolding(r.task) ==> IsAdmitted(t) || IsHolding(t))
      && (r.row.Some? ==>
            r.row.value.processing ==
            if AtNoPsbt(t) || (IsHolding(t) && !IsHolding(r.task)) then 1 - row.value.processing else row.value.processing)
      && (AtNoPsbt(t) && row.Some? ==> (IsAdmitted(r.task) <==> row.value.processing == 0))
  {
  }

  lemma NextKeepsNeverTwo(s: Trade, s': Trade)
    requires NeverTwo(s) && Next(s, s')
    ensures NeverTwo(s')
  {
    if id, t :| Arrives(s, s', id, t) {
      CountsAfter(s, s', id);
    } else {
      var id, env :| Steps(s, s', id, env);
      StepOnceStored(s.row, s.tasks[id], env);
      CountsAfter(s, s', id);
    }
  }

  // ---- and how two get there ----

  ghost predicate TwoAssembling(s: Trade) {
    exists i, j :: BothAdmitted(s, i, j)
  }

  ghost predicate BothAdmitted(s: Trade, i: nat, j: nat) {
    i in s.tasks && j in s.tasks && i != j && IsAdmitted(s.tasks[i]) && IsAdmitted(s.tasks[j])
  }

  lemma OneOf(tasks: map<nat, Task>, p: Task -> bool) returns (id: nat)
    requires |Having(tasks, p)| >= 1
    ensures id in tasks && p(tasks[id])
  {
    id :| id in Having(tasks, p);
  }

  lemma TwoOfThem(s: Trade)
    ensures AdmittedCount(s) >= 2 <==> TwoAssembling(s)
  {
    var them := Having(s.tasks, IsAdmitted);
    if |them| >= 2 {
      var i :| i in them;
      WithoutOne(them, i);
      var j :| j in them - {i};
      assert BothAdmitted(s, i, j);
    }
    if i, j :| BothAdmitted(s, i, j) {
      WithoutOne(them, i);
      assert j in them - {i};
    }
  }

  /** A poll that found no PSBT takes its turn: admitted when the lock is free, turned away otherwise. */
  lemma TakeTurn(o: Trade, s: Trade) returns (s': Trade)
    requires Leads(o, s) && s.row.Some? && LockKnown(s) && NoPsbtCount(s) >= 1
    ensures Leads(o, s') && s'.row.Some? && s'.row.value.processing == 1 - s.row.value.processing
    ensures AdmittedCount(s') == AdmittedCount(s) + 1 - s.row.value.processing
    ensures NoPsbtCount(s') == NoPsbtCount(s) - 1 && HoldingCount(s') == HoldingCount(s)
  {
    var id := OneOf(s.tasks, AtNoPsbt);
    s' := Do(o, s, id, QUIET);
    CountsAfter(s, s', id);
  }

  lemma ToggleBack(o: Trade, s: Trade) returns (s': Trade)
    requires Leads(o, s) && s.row.Some? && LockKnown(s) && HoldingCount(s) >= 1
    ensures Leads(o, s') && s'.row.Some? && s'.row.value.processing == 1 - s.row.value.processing
    ensures AdmittedCount(s') == AdmittedCount(s) && NoPsbtCount(s') == NoPsbtCount(s)
    ensures HoldingCount(s') == HoldingCount(s) - 1
  {
    var id := OneOf(s.tasks, IsHolding);
    s' := HandOver(o, s, id);
    CountsAfter(s, s', id);
  }

  lemma ReachTwo(o: Trade, s: Trade) returns (s': Trade)
    requires Leads(o, s) && LockKnown(s) && TwoPossible(s)
    ensures Leads(o, s') && AdmittedCount(s') >= 2
    decreases NoPsbtCount(s) + HoldingCount(s)
  {
    if AdmittedCount(s) >= 2 {
      s' := s;
    } else if s.row.value.processing != 0 && HoldingCount(s) >= 1 {
      var s1 := ToggleBack(o, s);
      s' := ReachTwo(o, s1);
    } else {
      var s1 := TakeTurn(o, s);
      s' := ReachTwo(o, s1);
    }
  }

  /** While no PSBT is stored two new polls can always be admitted. */
  lemma NothingStoredReachesTwo(o: Trade, s: Trade) returns (s': Trade)
    requires Leads(o, s) && s.row.Some? && TradersDiffer(s.row.value.terms) && s.row.value.payoutPsbt.None?
    requires s.row.value.confirmed == 0 || s.row.value.confirmed == 1
    ensures Leads(o, s') && TwoAssembling(s')
  {
    var s1 := MakeHappy(o, s);
    var s2, first := Admit(o, s1);
    var s3, second := Admit(o, s2);
    s' := s3;
    assert BothAdmitted(s', first, second);
  }

  lemma TwoImpossible(s: Trade, s': Trade)
    requires NeverTwo(s) && Leads(s, s')
    ensures !TwoAssembling(s')
  {
    forall u, u' | NeverTwo(u) && Next(u, u') ensures NeverTwo(u') {
      NextKeepsNeverTwo(u, u');
    }
    Runs.InvariantContinues(s, s', Next, NeverTwo);
    TwoOfThem(s');
  }

  /** The lock, exactly: some continuation has two pollers assembling at the same time when and only
      when no PSBT is stored yet, or the polls under way suffice for two admissions. */
  lemma TwoAssemblingIff(s: Trade)
    requires Reachable(s) && TradersDiffer(s.terms)
    ensures (exists s' :: Leads(s, s') && TwoAssembling(s')) <==>
      (s.row.Some? && s.row.value.payoutPsbt.None?) || TwoPossible(s)
  {
    Runs.StaysPut(s, Next);
    if s.row.Some? {
      LockBound(s);
      TradeSignatures.KnownConfirmation(s);
    }
    if s.row.Some? && s.row.value.payoutPsbt.None? {
      var s' := NothingStoredReachesTwo(s, s);
    } else if TwoPossible(s) {
      var s' := ReachTwo(s, s);
      TwoOfThem(s');
    } else {
      forall s' | Leads(s, s') ensures !TwoAssembling(s') {
        TwoImpossible(s, s');
      }
    }
  }
}
