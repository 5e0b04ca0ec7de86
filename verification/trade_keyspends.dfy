/** When all keyspends that can still be broadcast for a trade are the same, exactly. */
module TradeKeyspends {
  import opened Types
  import opened Statements
  import opened Trade
  import Runs
  import opened TradeAgreement
  import opened TradeDrive
  import opened TradeSignatures

  /** All keyspends broadcast so far are one. */
  ghost predicate SentSame(s: Trade) {
    forall k, l :: KeyspendSent(k) in s.log && KeyspendSent(l) in s.log ==> k == l
  }

  /** A submission that is about to broadcast. */
  predicate InContext(t: Task) {
    t.SigTask? && t.sigPc.Context?
  }

  /** Broadcast, or read and about to be broadcast. */
  ghost predicate Committed(s: Trade, k: Keyspend) {
    KeyspendSent(k) in s.log || exists id :: id in s.tasks && InContext(s.tasks[id]) && s.tasks[id].sigPc.keyspend == k
  }

  ghost predicate CommittedSame(s: Trade) {
    forall k, l :: Committed(s, k) && Committed(s, l) ==> k == l
  }

  ghost predicate NoneCommitted(s: Trade) {
    forall k :: !Committed(s, k)
  }

  /** A submission that will still read both signatures; it may have to write its own first. */
  predicate WillRead(t: Task) {
    t.SigTask? && (t.sigPc.Vacant? || t.sigPc.Written?)
  }

  predicate BothSigned(row: TakenOffer) {
    row.partialSigMaker.Some? && row.partialSigTaker.Some?
  }

  /** The row once a reader has written its own signature. */
  function AfterWrite(row: TakenOffer, t: Task): TakenOffer
    requires WillRead(t)
  {
    if t.sigPc.Vacant? then PutPartialSig(row, t.sigPc.isMaker, t.sig) else row
  }

  /** What a reader reads if it goes on at once. */
  function ReadNow(row: TakenOffer, t: Task): Keyspend
    requires WillRead(t) && BothSigned(row) && row.payoutPsbt.Some?
  {
    var after := AfterWrite(row, t);
    Keyspend(after.partialSigMaker.value, after.partialSigTaker.value, after.payoutPsbt.value)
  }

  /** The stored payout PSBT is this one and stays so. */
  ghost predicate PsbtFixed(s: Trade, psbt: Hex) {
    && (s.row.Some? ==> s.row.value.payoutPsbt == Some(psbt))
    && (forall id :: id in s.tasks ==> !IsAdmitted(s.tasks[id]))
    && (forall id :: id in s.tasks && IsAssembled(s.tasks[id]) ==> s.tasks[id].pollPc.psbt == psbt)
    && (forall id :: id in s.tasks && AtNoPsbt(s.tasks[id]) ==> ShutOut(s, id))
  }

  predicate IsAssembled(t: Task) {
    t.PollTask? && t.pollPc.Assembled?
  }

  /** Everything committed is `k`, and every reader reads `k`. */
  ghost predicate OnlyOne(s: Trade, k: Keyspend)
    requires s.row.Some? && BothSigned(s.row.value)
  {
    && (forall l :: Committed(s, l) ==> l == k)
    && PsbtFixed(s, k.psbt)
    && forall id :: id in s.tasks && WillRead(s.tasks[id]) ==> ReadNow(s.row.value, s.tasks[id]) == k
  }

  ghost predicate NoReader(s: Trade) {
    forall id :: id in s.tasks ==> !WillRead(s.tasks[id])
  }

  ghost predicate AtMostOneReader(s: Trade) {
    forall i, j :: i in s.tasks && j in s.tasks && WillRead(s.tasks[i]) && WillRead(s.tasks[j]) ==> i == j
  }

  /** What can be read off the state: one keyspend is committed at most, and while there is a row both
      signatures are there and the readers left cannot read another one. */
  ghost predicate KeyspendSettled(s: Trade) {
    && CommittedSame(s)
    && (s.row.Some? ==>
          && BothSigned(s.row.value)
          && (NoReader(s) || (AtMostOneReader(s) && NoneCommitted(s)) || exists k :: OnlyOne(s, k)))
  }

  // ---- settled for good ----

  /** A step of anything but a signature submission. */
  lemma OtherStep(row: Option<TakenOffer>, t: Task, env: Env)
    requires !IsFinished(t) && !t.SigTask?
    ensures var r := TaskStep(row, t, env);
      && !r.task.SigTask? && (forall k :: KeyspendSent(k) !in r.events)
      && (r.row.Some? <==> row.Some?)
      && (row.Some? ==> SameSignatures(row.value, r.row.value))
  {
  }

  /** A step of a signature submission where both signatures are there. */
  lemma SigStepWhenSigned(row: Option<TakenOffer>, t: Task, env: Env)
    requires !IsFinished(t) && t.SigTask? && (row.Some? ==> BothSigned(row.value))
    ensures var r := TaskStep(row, t, env);
      && r.task.SigTask? && (r.row.Some? ==> row.Some?)
      && (WillRead(r.task) ==> WillRead(t))
      && (r.row.Some? ==> r.row.value == if WillRead(t) then AfterWrite(row.value, t) else row.value)
      && (r.row.Some? && WillRead(r.task) ==> r.task.sigPc.Written?)
      && (InContext(r.task) ==>
            WillRead(t) && row.Some? && row.value.payoutPsbt.Some? && r.task.sigPc.keyspend == ReadNow(row.value, t)
            && !WillRead(r.task))
      && (forall k :: KeyspendSent(k) in r.events ==> InContext(t) && k == t.sigPc.keyspend)
  {
  }

  lemma CommittedAfter(s: Trade, s': Trade, id: nat, events: seq<Event>, k: Keyspend)
    requires id in s.tasks && id in s'.tasks && s'.tasks == s.tasks[id := s'.tasks[id]] && s'.log == s.log + events
    requires forall l :: KeyspendSent(l) in events ==> InContext(s.tasks[id]) && l == s.tasks[id].sigPc.keyspend
    requires Committed(s', k)
    ensures Committed(s, k) || (InContext(s'.tasks[id]) && s'.tasks[id].sigPc.keyspend == k)
  {
  }

  // The payout PSBT, as in TradeAgreement but without regard to answers.

  lemma StepWhenFixed(row: Option<TakenOffer>, t: Task, env: Env, psbt: Hex)
    requires !IsFinished(t) && !IsAdmitted(t) && (IsAssembled(t) ==> t.pollPc.psbt == psbt)
    requires row.Some? ==> row.value.payoutPsbt == Some(psbt)
    requires AtNoPsbt(t) && row.Some? ==> row.value.processing != 0
    ensures var r := TaskStep(row, t, env);
      && (r.row.Some? ==> row.Some? && r.row.value.payoutPsbt == Some(psbt))
      && !IsAdmitted(r.task) && !AtNoPsbt(r.task) && !IsAssembled(r.task)
      && (WillToggle(r.task) ==> WillToggle(t))
      && (r.row.Some? && !WillToggle(t) ==> r.row.value.processing == row.value.processing)
  {
  }

  lemma StepKeepsPsbtFixed(s: Trade, s': Trade, id: nat, env: Env, psbt: Hex)
    requires PsbtFixed(s, psbt) && Steps(s, s', id, env)
    ensures PsbtFixed(s', psbt)
  {
    StepWhenFixed(s.row, s.tasks[id], env, psbt);
    forall j | j in s'.tasks && AtNoPsbt(s'.tasks[j]) ensures ShutOut(s', j) {
      assert j != id && ShutOut(s, j);
    }
  }

  lemma OtherStepKeepsSettled(s: Trade, s': Trade, id: nat, env: Env)
    requires KeyspendSettled(s) && Steps(s, s', id, env) && !s.tasks[id].SigTask?
    ensures KeyspendSettled(s')
  {
    var r := TaskStep(s.row, s.tasks[id], env);
    OtherStep(s.row, s.tasks[id], env);
    forall k | Committed(s', k) ensures Committed(s, k) {
      CommittedAfter(s, s', id, r.events, k);
    }
    if s.row.Some? && !NoReader(s) && !(AtMostOneReader(s) && NoneCommitted(s)) {
      var k :| OnlyOne(s, k);
      StepKeepsPsbtFixed(s, s', id, env, k.psbt);
      assert OnlyOne(s', k);
    }
  }

  /** A reader writes its signature, or reads. */
  lemma ReaderKeepsOnlyOne(s: Trade, s': Trade, id: nat, env: Env, k: Keyspend)
    requires s.row.Some? && BothSigned(s.row.value) && OnlyOne(s, k) && Steps(s, s', id, env) && s.tasks[id].SigTask?
    requires s'.row.Some?
    ensures BothSigned(s'.row.value) && OnlyOne(s', k)
  {
    var r := TaskStep(s.row, s.tasks[id], env);
    SigStepWhenSigned(s.row, s.tasks[id], env);
    StepKeepsPsbtFixed(s, s', id, env, k.psbt);
    forall l | Committed(s', l) ensures l == k {
      CommittedAfter(s, s', id, r.events, l);
    }
  }

  lemma SigStepKeepsSettled(s: Trade, s': Trade, id: nat, env: Env)
    requires KeyspendSettled(s) && Steps(s, s', id, env) && s.tasks[id].SigTask?
    ensures KeyspendSettled(s')
  {
    var t, r := s.tasks[id], TaskStep(s.row, s.tasks[id], env);
    SigStepWhenSigned(s.row, t, env);
    forall k | Committed(s', k) ensures Committed(s, k) || (InContext(r.task) && r.task.sigPc.keyspend == k) {
      CommittedAfter(s, s', id, r.events, k);
    }
    if s.row.Some? && !NoReader(s) && !(AtMostOneReader(s) && NoneCommitted(s)) {
      var k :| OnlyOne(s, k);
      if s'.row.Some? {
        ReaderKeepsOnlyOne(s, s', id, env, k);
      }
    } else if s.row.Some? && !NoReader(s) && InContext(r.task) {
      assert NoReader(s');
    }
  }

  lemma NextKeepsKeyspendSettled(s: Trade, s': Trade)
    requires KeyspendSettled(s) && Next(s, s')
    ensures KeyspendSettled(s')
  {
    if id, t :| Arrives(s, s', id, t) {
      ArrivalKeepsSettled(s, s', id, t);
    } else {
      var id, env :| Steps(s, s', id, env);
      if s.tasks[id].SigTask? {
        SigStepKeepsSettled(s, s', id, env);
      } else {
        OtherStepKeepsSettled(s, s', id, env);
      }
    }
  }

  lemma NewTaskIsNothing(t: Task)
    requires IsNew(t)
    ensures !WillRead(t) && !InContext(t) && !IsAdmitted(t) && !IsAssembled(t) && !AtNoPsbt(t) && !WillToggle(t)
  {
  }

  lemma ArrivalKeepsOnlyOne(s: Trade, s': Trade, id: nat, t: Task, k: Keyspend)
    requires s.row.Some? && BothSigned(s.row.value) && OnlyOne(s, k) && Arrives(s, s', id, t)
    ensures OnlyOne(s', k)
  {
    NewTaskIsNothing(t);
    assert forall l :: Committed(s', l) ==> Committed(s, l);
  }

  lemma ArrivalKeepsSettled(s: Trade, s': Trade, id: nat, t: Task)
    requires KeyspendSettled(s) && Arrives(s, s', id, t)
    ensures KeyspendSettled(s')
  {
    NewTaskIsNothing(t);
    assert forall k :: Committed(s', k) ==> Committed(s, k);
    if s.row.Some? && !NoReader(s) && !(AtMostOneReader(s) && NoneCommitted(s)) {
      var k :| OnlyOne(s, k);
      ArrivalKeepsOnlyOne(s, s', id, t, k);
    }
  }

  lemma SettledSendsOne(s: Trade, s': Trade)
    requires KeyspendSettled(s) && Leads(s, s')
    ensures SentSame(s')
  {
    forall u, u' | KeyspendSettled(u) && Next(u, u') ensures KeyspendSettled(u') {
      NextKeepsKeyspendSettled(u, u');
    }
    Runs.InvariantContinues(s, s', Next, KeyspendSettled);
    assert forall k :: KeyspendSent(k) in s'.log ==> Committed(s', k);
  }

  // ---- otherwise two different keyspends can be broadcast ----

  /** What has happened stays in the log. */
  lemma LogStays(s: Trade, s': Trade)
    requires Leads(s, s')
    ensures forall e :: e in s.log ==> e in s'.log
  {
    Runs.InvariantContinues(s, s', Next, (u: Trade) => forall e :: e in s.log ==> e in u.log);
  }

  /** The broadcast of a submission that has read both signatures. */
  lemma Send(o: Trade, s: Trade, k: Keyspend) returns (s': Trade)
    requires Leads(o, s) && Committed(s, k)
    ensures Leads(o, s') && KeyspendSent(k) in s'.log
    ensures forall l :: Committed(s, l) ==> Committed(s', l)
    ensures forall e :: e in s.log ==> e in s'.log
  {
    if KeyspendSent(k) in s.log {
      s' := s;
    } else {
      var id :| id in s.tasks && InContext(s.tasks[id]) && s.tasks[id].sigPc.keyspend == k;
      var r := TaskStep(s.row, s.tasks[id], QUIET);
      s' := s.(row := r.row, tasks := s.tasks[id := r.task], log := s.log + r.events);
      assert Steps(s, s', id, QUIET);
      Runs.GoesOn(o, s, s', Next);
      assert r.events == [KeyspendSent(k)] && s'.log[|s.log|] == KeyspendSent(k);
      forall l | Committed(s, l) ensures Committed(s', l) {
        if KeyspendSent(l) !in s.log {
          var j :| j in s.tasks && InContext(s.tasks[j]) && s.tasks[j].sigPc.keyspend == l;
          assert j == id || s'.tasks[j] == s.tasks[j];
        }
      }
    }
  }

  lemma SendBoth(o: Trade, s: Trade, k: Keyspend, l: Keyspend) returns (s': Trade)
    requires Leads(o, s) && Committed(s, k) && Committed(s, l) && k != l
    ensures Leads(o, s') && !SentSame(s')
  {
    var s1 := Send(o, s, k);
    s' := Send(o, s1, l);
    assert KeyspendSent(k) in s'.log && KeyspendSent(l) in s'.log;
  }

  /** A reader goes on at once, up to its broadcast. */
  lemma Read(o: Trade, s: Trade, id: nat) returns (s': Trade)
    requires Leads(o, s) && s.row.Some? && BothSigned(s.row.value) && s.row.value.payoutPsbt.Some?
    requires id in s.tasks && WillRead(s.tasks[id])
    ensures Leads(o, s') && s'.row == Some(AfterWrite(s.row.value, s.tasks[id]))
    ensures id in s'.tasks && InContext(s'.tasks[id]) && s'.tasks[id].sigPc.keyspend == ReadNow(s.row.value, s.tasks[id])
    ensures s'.tasks == s.tasks[id := s'.tasks[id]]
  {
    s' := s;
    if s.tasks[id].sigPc.Vacant? {
      s' := Do(o, s, id, QUIET);
    }
    s' := Do(o, s', id, QUIET);
  }

  /** A reader that reads another keyspend than one that is committed. */
  lemma ReadAnother(o: Trade, s: Trade, id: nat, k: Keyspend) returns (s': Trade)
    requires Leads(o, s) && s.row.Some? && BothSigned(s.row.value) && s.row.value.payoutPsbt.Some?
    requires id in s.tasks && WillRead(s.tasks[id]) && ReadNow(s.row.value, s.tasks[id]) != k
    requires KeyspendSent(k) in o.log || exists j :: j in s.tasks && InContext(s.tasks[j]) && s.tasks[j].sigPc.keyspend == k
    ensures Leads(o, s') && !SentSame(s')
  {
    var s1 := Read(o, s, id);
    LogStays(o, s1);
    if KeyspendSent(k) !in o.log {
      var j :| j in s.tasks && InContext(s.tasks[j]) && s.tasks[j].sigPc.keyspend == k;
      assert s1.tasks[j] == s.tasks[j];
    }
    s' := SendBoth(o, s1, k, ReadNow(s.row.value, s.tasks[id]));
  }

  /** Of two readers that read differently one changes what the other reads, or they just differ. */
  lemma OrderMatters(row: TakenOffer, t: Task, u: Task)
    requires WillRead(t) && WillRead(u) && BothSigned(row) && row.payoutPsbt.Some? && ReadNow(row, t) != ReadNow(row, u)
    ensures ReadNow(AfterWrite(row, t), u) != ReadNow(row, t) || ReadNow(AfterWrite(row, u), t) != ReadNow(row, u)
  {
  }

  lemma ReadersDiffer(o: Trade, s: Trade, i: nat, j: nat) returns (s': Trade)
    requires Leads(o, s) && s.row.Some? && BothSigned(s.row.value) && s.row.value.payoutPsbt.Some?
    requires i in s.tasks && j in s.tasks && i != j && WillRead(s.tasks[i]) && WillRead(s.tasks[j])
    requires ReadNow(s.row.value, s.tasks[i]) != ReadNow(s.row.value, s.tasks[j])
    ensures Leads(o, s') && !SentSame(s')
  {
    OrderMatters(s.row.value, s.tasks[i], s.tasks[j]);
    var first, second := i, j;
    if ReadNow(AfterWrite(s.row.value, s.tasks[i]), s.tasks[j]) == ReadNow(s.row.value, s.tasks[i]) {
      first, second := j, i;
    }
    var s1 := Read(o, s, first);
    s' := ReadAnother(o, s1, second, ReadNow(s.row.value, s.tasks[first]));
  }

  /** The submissions of signatures are as they were. */
  ghost predicate KeepsSignatures(s: Trade, s': Trade) {
    && s'.row.Some? == s.row.Some? && (s.row.Some? ==> SameSignatures(s.row.value, s'.row.value))
    && forall id :: id in s.tasks && s.tasks[id].SigTask? ==> id in s'.tasks && s'.tasks[id] == s.tasks[id]
  }

  /** A payout PSBT that is not fixed can be replaced. */
  lemma ReplacePsbt(o: Trade, s: Trade, psbt: Hex) returns (s': Trade)
    requires Leads(o, s) && s.row.Some? && s.row.value.payoutPsbt == Some(psbt) && !PsbtFixed(s, psbt)
    ensures Leads(o, s') && KeepsSignatures(s, s') && s'.row.value.payoutPsbt.Some? && s'.row.value.payoutPsbt != Some(psbt)
  {
    if id :| id in s.tasks && IsAdmitted(s.tasks[id]) {
      s' := AdmittedGivesAnother(o, s, id, psbt);
    } else if id :| id in s.tasks && IsAssembled(s.tasks[id]) && s.tasks[id].pollPc.psbt != psbt {
      s' := HandOver(o, s, id);
    } else {
      var id :| id in s.tasks && AtNoPsbt(s.tasks[id]) && !ShutOut(s, id);
      s' := NoPsbtGivesAnother(o, s, id, psbt);
    }
  }

  /** From an empty payout column any PSBT can be stored. */
  lemma StoreFirst(o: Trade, s: Trade, psbt: Hex) returns (s': Trade)
    requires Leads(o, s) && s.row.Some? && TradersDiffer(s.row.value.terms) && s.row.value.payoutPsbt.None?
    requires s.row.value.confirmed == 0 || s.row.value.confirmed == 1
    ensures Leads(o, s') && KeepsSignatures(s, s') && s'.row.value.payoutPsbt == Some(psbt)
  {
    var s1 := MakeHappy(o, s);
    var s2, id := Admit(o, s1);
    s' := DriveAssembly(o, s2, id, psbt);
  }

  /** From an empty payout column one PSBT can be stored such that it can be replaced. */
  lemma StoreUnfixed(o: Trade, s: Trade, psbt: Hex) returns (s': Trade)
    requires Leads(o, s) && s.row.Some? && TradersDiffer(s.row.value.terms) && s.row.value.payoutPsbt.None?
    requires s.row.value.confirmed == 0 || s.row.value.confirmed == 1
    ensures Leads(o, s') && KeepsSignatures(s, s') && s'.row.value.payoutPsbt == Some(psbt) && !PsbtFixed(s', psbt)
  {
    var s1 := MakeHappy(o, s);
    var late := Fresh(s1);
    var s2 := DrivePollToRead(o, s1, late);
    var s3, id := Admit(o, s2);
    s' := DriveAssembly(o, s3, id, psbt);
    assert AtNoPsbt(s'.tasks[late]) && !ShutOut(s', late);
  }

  lemma FixedLooksBack(s: Trade, s': Trade, psbt: Hex)
    requires s.row.Some? && s'.row.Some?
    requires forall id :: id in s.tasks && s.tasks[id].PollTask? ==> id in s'.tasks && s'.tasks[id] == s.tasks[id]
    requires s'.row.value.processing == s.row.value.processing && s'.row.value.payoutPsbt == s.row.value.payoutPsbt
    ensures PsbtFixed(s', psbt) ==> PsbtFixed(s, psbt)
  {
  }

  /** Two readers, and a stored PSBT that can be replaced between them. */
  lemma ReplaceBetween(o: Trade, s: Trade, i: nat, j: nat, psbt: Hex) returns (s': Trade)
    requires Leads(o, s) && s.row.Some? && BothSigned(s.row.value) && s.row.value.payoutPsbt == Some(psbt)
    requires i in s.tasks && j in s.tasks && i != j && WillRead(s.tasks[i]) && WillRead(s.tasks[j])
    requires !PsbtFixed(s, psbt)
    ensures Leads(o, s') && !SentSame(s')
  {
    var s1 := Read(o, s, i);
    FixedLooksBack(s, s1, psbt);
    var s2 := ReplacePsbt(o, s1, psbt);
    s' := ReadAnother(o, s2, j, ReadNow(s.row.value, s.tasks[i]));
  }

  lemma CommittedKept(s: Trade, s': Trade, k: Keyspend)
    requires KeepsSignatures(s, s') && Committed(s, k)
    ensures KeyspendSent(k) in s.log || exists j :: j in s'.tasks && InContext(s'.tasks[j]) && s'.tasks[j].sigPc.keyspend == k
  {
    if KeyspendSent(k) !in s.log {
      var j :| j in s.tasks && InContext(s.tasks[j]) && s.tasks[j].sigPc.keyspend == k;
      assert s'.tasks[j] == s.tasks[j];
    }
  }

  /** An empty slot: two new submissions of that trader race, and each reads its own signature. */
  lemma EmptySlotDiffers(o: Trade, s: Trade, isMaker: bool) returns (s': Trade)
    requires Leads(o, s) && s.row.Some? && Payable(s.row.value) && PartialSig(s.row.value, isMaker).None?
    ensures Leads(o, s') && !SentSame(s')
  {
    var s1 := s;
    if PartialSig(s.row.value, !isMaker).None? {
      var other;
      s1, other := HandIn(o, s, !isMaker);
    }
    var i := Fresh(s1);
    var s2 := DriveSigToCheck(o, s1, i, isMaker, "0");
    var j := Fresh(s2);
    var s3 := DriveSigToCheck(o, s2, j, isMaker, "1");
    var s4 := Do(o, s3, i, QUIET);
    assert BothSigned(s4.row.value);
    s' := ReadersDiffer(o, s4, i, j);
  }

  /** Both signatures are there, a PSBT is stored, and the state is not settled. */
  lemma StoredDiffers(s: Trade, psbt: Hex) returns (s': Trade)
    requires s.row.Some? && BothSigned(s.row.value) && s.row.value.payoutPsbt == Some(psbt)
    requires CommittedSame(s) && !KeyspendSettled(s)
    ensures Leads(s, s') && !SentSame(s')
  {
    Runs.StaysPut(s, Next);
    var i :| i in s.tasks && WillRead(s.tasks[i]);
    var k := ReadNow(s.row.value, s.tasks[i]);
    if l :| Committed(s, l) && l != k {
      CommittedKept(s, s, l);
      s' := ReadAnother(s, s, i, l);
    } else if j :| j in s.tasks && WillRead(s.tasks[j]) && ReadNow(s.row.value, s.tasks[j]) != k {
      s' := ReadersDiffer(s, s, i, j);
    } else {
      assert !OnlyOne(s, k);
      assert !PsbtFixed(s, psbt);
      if l :| Committed(s, l) {
        var s1 := ReplacePsbt(s, s, psbt);
        CommittedKept(s, s1, l);
        s' := ReadAnother(s, s1, i, l);
      } else {
        var a, b :| a in s.tasks && b in s.tasks && WillRead(s.tasks[a]) && WillRead(s.tasks[b]) && a != b;
        s' := ReplaceBetween(s, s, a, b, psbt);
      }
    }
  }

  /** Both signatures are there, no PSBT is stored, and the state is not settled. */
  lemma UnstoredDiffers(s: Trade) returns (s': Trade)
    requires s.row.Some? && BothSigned(s.row.value) && s.row.value.payoutPsbt.None? && TradersDiffer(s.row.value.terms)
    requires s.row.value.confirmed == 0 || s.row.value.confirmed == 1
    requires CommittedSame(s) && !KeyspendSettled(s)
    ensures Leads(s, s') && !SentSame(s')
  {
    Runs.StaysPut(s, Next);
    if l :| Committed(s, l) {
      var i :| i in s.tasks && WillRead(s.tasks[i]);
      var s1 := StoreFirst(s, s, Other(l.psbt));
      CommittedKept(s, s1, l);
      s' := ReadAnother(s, s1, i, l);
    } else {
      var i, j :| i in s.tasks && j in s.tasks && WillRead(s.tasks[i]) && WillRead(s.tasks[j]) && i != j;
      var s1 := StoreUnfixed(s, s, "");
      s' := ReplaceBetween(s, s1, i, j, "");
    }
  }

  /** Which keyspend is broadcast, exactly: no continuation ever broadcasts two different ones when
      and only when at most one is committed so far and, while there is a row, both signatures are
      there and either nobody is left to read them, or one reader is and nothing is committed, or
      every reader is bound to read the one keyspend that may be committed. */
  lemma KeyspendsAgreeIffSettled(s: Trade)
    requires Reachable(s) && TradersDiffer(s.terms)
    ensures (forall s' :: Leads(s, s') ==> SentSame(s')) <==> KeyspendSettled(s)
  {
    Runs.StaysPut(s, Next);
    if KeyspendSettled(s) {
      forall s' | Leads(s, s') ensures SentSame(s') {
        SettledSendsOne(s, s');
      }
    } else {
      var s' := UnsettledDiffers(s);
    }
  }

  lemma UnsettledDiffers(s: Trade) returns (s': Trade)
    requires Reachable(s) && TradersDiffer(s.terms) && !KeyspendSettled(s)
    ensures Leads(s, s') && !SentSame(s')
  {
    Runs.StaysPut(s, Next);
    if !CommittedSame(s) {
      var k, l :| Committed(s, k) && Committed(s, l) && k != l;
      s' := SendBoth(s, s, k, l);
    } else {
      KnownConfirmation(s);
      if !BothSigned(s.row.value) {
        var s1 := MakePayable(s, s);
        s' := EmptySlotDiffers(s, s1, s.row.value.partialSigMaker.None?);
      } else if s.row.value.payoutPsbt.Some? {
        s' := StoredDiffers(s, s.row.value.payoutPsbt.value);
      } else {
        s' := UnstoredDiffers(s);
      }
    }
  }

  /** A new trade is not settled: it has a run that broadcasts two different keyspends. */
  lemma TwoKeyspendsCanBeSent(terms: Terms) returns (s: Trade)
    requires TradersDiffer(terms)
    ensures Reachable(s) && s.terms == terms && !SentSame(s)
  {
    var o := Begin(terms);
    Reached(o, o);
    s := UnsettledDiffers(o);
    Reached(o, s);
    TermsStay(o, s);
  }
}
