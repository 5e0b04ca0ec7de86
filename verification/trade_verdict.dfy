/** Who is still told a verdict once it has closed the dispute, exactly. */
module TradeVerdict {
  import opened Types
  import opened Statements
  import opened Trade
  import Runs
  import opened TradeDispute
  import opened TradeDrive

  /** A poll that has read an open dispute and not yet the winner. */
  predicate ReadsVerdict(t: Task) {
    t.PollTask? && t.pollPc.InDispute?
  }

  /** A poll that was told the verdict; the winner's one panics. */
  predicate WasTold(t: Task) {
    t.PollTask? && (t.pollPc.Lost? || t.pollPc.Panicked?)
  }

  ghost predicate NewlyTold(s: Trade, s': Trade) {
    exists id :: id in s'.tasks && WasTold(s'.tasks[id]) && !(id in s.tasks && WasTold(s.tasks[id]))
  }

  /** No dispute is open and no poll is about to read the verdict. */
  ghost predicate NobodyAsks(s: Trade) {
    (s.row.Some? ==> s.row.value.escrowOngoing == 0) && forall id :: id in s.tasks ==> !ReadsVerdict(s.tasks[id])
  }

  /** What holds along a continuation of `s` until a trader asks for escrow. */
  ghost predicate Untold(s: Trade, u: Trade) {
    && DisputeKnown(u) && |s.log| <= |u.log|
    && (!DisputeOpenedSince(s, u) ==> NobodyAsks(u) && !NewlyTold(s, u))
  }

  lemma StepWhenNobodyAsks(terms: Terms, row: Option<TakenOffer>, t: Task, env: Env)
    requires !IsFinished(t) && !ReadsVerdict(t)
    requires row.Some? ==> row.value.escrowOngoing == 0 && DisputeColumns(terms, row.value)
    ensures var r := TaskStep(row, t, env);
      && !ReadsVerdict(r.task) && !WasTold(r.task)
      && (DisputeOpened in r.events || (r.row.Some? ==> r.row.value.escrowOngoing == 0))
  {
  }

  lemma NextKeepsUntold(s: Trade, u: Trade, u': Trade)
    requires Untold(s, u) && Next(u, u')
    ensures Untold(s, u')
  {
    NextKeepsDisputeKnown(u, u');
    if !DisputeOpenedSince(s, u') {
      LogGrows(u, u');
      if DisputeOpenedSince(s, u) {
        OpenedBefore(s, u, u');
      }
      if id, env :| Steps(u, u', id, env) {
        StepWhenNobodyAsks(u.terms, u.row, u.tasks[id], env);
        NoneOpened(s, u, u', TaskStep(u.row, u.tasks[id], env).events);
      }
    }
  }

  lemma LogGrows(u: Trade, u': Trade)
    requires Next(u, u')
    ensures |u.log| <= |u'.log| && u'.log[..|u.log|] == u.log
  {
  }

  lemma OpenedBefore(s: Trade, u: Trade, u': Trade)
    requires |u.log| <= |u'.log| && u'.log[..|u.log|] == u.log && DisputeOpenedSince(s, u)
    ensures DisputeOpenedSince(s, u')
  {
    var n :| |s.log| <= n < |u.log| && u.log[n] == DisputeOpened;
    assert u'.log[..|u.log|][n] == u'.log[n];
  }

  lemma NoneOpened(s: Trade, u: Trade, u': Trade, events: seq<Event>)
    requires |s.log| <= |u.log| && u'.log == u.log + events && !DisputeOpenedSince(s, u')
    ensures DisputeOpened !in events
  {
    assert forall n :: 0 <= n < |events| ==> u'.log[|u.log| + n] == events[n];
  }

  lemma DisputeKnownReachable(s: Trade)
    requires Reachable(s)
    ensures DisputeKnown(s)
  {
    forall u, u' | DisputeKnown(u) && Next(u, u') ensures DisputeKnown(u') {
      NextKeepsDisputeKnown(u, u');
    }
    Runs.InvariantReachable(s, Init, Next, DisputeKnown);
  }

  lemma NobodyIsTold(s: Trade, s': Trade)
    requires Reachable(s) && NobodyAsks(s) && Leads(s, s') && !DisputeOpenedSince(s, s')
    ensures !NewlyTold(s, s')
  {
    DisputeKnownReachable(s);
    forall u, u' | Untold(s, u) && Next(u, u') ensures Untold(s, u') {
      NextKeepsUntold(s, u, u');
    }
    Runs.InvariantContinues(s, s', Next, u => Untold(s, u));
  }

  /** The read of the winner by a poll in the dispute branch. */
  lemma TellVerdict(s: Trade, id: nat) returns (s': Trade)
    requires s.row.Some? && s.row.value.escrowWinner.Some? && id in s.tasks && ReadsVerdict(s.tasks[id])
    ensures Next(s, s') && s'.row == s.row && s'.log == s.log && id in s'.tasks && NewlyTold(s, s')
    ensures s'.tasks[id].PollTask? && s'.tasks[id].pollPc ==
      if s.row.value.escrowWinner == Some(s.tasks[id].who) then PollPc.Panicked else PollPc.Lost
  {
    var r := TaskStep(s.row, s.tasks[id], QUIET);
    s' := s.(row := r.row, tasks := s.tasks[id := r.task], log := s.log + r.events);
    assert Steps(s, s', id, QUIET);
    assert WasTold(s'.tasks[id]);
  }

  /** A stored verdict whose dispute is closed, exactly: without a new request for escrow somebody is
      still told it when and only when a poll already stands in the dispute branch. So no poll that
      starts afterwards is. */
  lemma VerdictToldIff(s: Trade)
    requires Reachable(s) && s.row.Some? && s.row.value.escrowOngoing == 0 && s.row.value.escrowWinner.Some?
    ensures (exists s' :: Leads(s, s') && !DisputeOpenedSince(s, s') && NewlyTold(s, s'))
      <==> exists id :: id in s.tasks && ReadsVerdict(s.tasks[id])
  {
    if id :| id in s.tasks && ReadsVerdict(s.tasks[id]) {
      var s' := TellVerdict(s, id);
      Runs.StaysPut(s, Next);
      Runs.GoesOn(s, s, s', Next);
      assert Leads(s, s') && !DisputeOpenedSince(s, s') && NewlyTold(s, s');
    } else {
      forall s' | Leads(s, s') && !DisputeOpenedSince(s, s') ensures !NewlyTold(s, s') {
        NobodyIsTold(s, s');
      }
    }
  }

  // ---- both cases occur ----

  lemma DriveUnhappy(o: Trade, s: Trade, id: nat, isMaker: bool) returns (s': Trade)
    requires Leads(o, s) && id !in s.tasks && s.row.Some? && s.row.value.confirmed == 1 && TradersDiffer(s.row.value.terms)
    ensures Leads(o, s') && s'.terms == s.terms && s'.row == Some(OpenDispute(PutHappy(s.row.value, isMaker, false)))
    ensures s'.tasks == s.tasks[id := HappyTask(TraderId(s.row.value.terms, isMaker), false, HappyPc.Recorded(isMaker))]
  {
    s' := Start(o, s, id, HappyTask(TraderId(s.row.value.terms, isMaker), false, HappyPc.Arrived));
    s' := Do(o, s', id, QUIET);
    s' := Do(o, s', id, QUIET);
    s' := Do(o, s', id, QUIET);
    s' := Do(o, s', id, QUIET);
    s' := Do(o, s', id, QUIET);
  }

  /** A disputed trade with the operator's question open and, if `late`, a poll that has read the dispute. */
  lemma DisputeReached(terms: Terms, who: Robohash, late: bool) returns (o: Trade, s: Trade)
    requires TradersDiffer(terms)
    ensures Init(o) && Leads(o, s) && s.terms == terms && s.row.Some? && s.row.value.escrowOngoing == 1
    ensures s.tasks.Keys == {0, 1, 2} + (if late then {3} else {})
    ensures s.tasks[2] == CliTask(CliPc.Open(terms.robohashMaker, terms.robohashTaker))
    ensures !ReadsVerdict(s.tasks[0]) && !ReadsVerdict(s.tasks[1])
    ensures late ==> s.tasks[3] == PollTask(who, PollPc.InDispute)
  {
    o := Begin(terms);
    s := DriveConfirmation(o, o, 0);
    s := DriveUnhappy(o, s, 1, true);
    s := Start(o, s, 2, CliTask(CliPc.Arrived));
    s := Do(o, s, 2, QUIET);
    if late {
      s := Start(o, s, 3, PollTask(who, PollPc.Arrived));
      s := Do(o, s, 3, QUIET);
    }
  }

  /** A poll of either trader that read the open dispute before the verdict is told it after the
      verdict has closed the dispute, and nobody has asked again. */
  lemma LatePollIsTold(terms: Terms, makerWins: bool, isMaker: bool) returns (s: Trade, s': Trade)
    requires TradersDiffer(terms)
    ensures Reachable(s) && s.terms == terms && s.row.Some? && s.row.value.escrowOngoing == 0
    ensures s.row.value.escrowWinner == Some(TraderId(terms, makerWins))
    ensures Next(s, s') && s'.row == s.row && s'.log == s.log && 3 in s'.tasks
    ensures s'.tasks[3] == PollTask(TraderId(terms, isMaker), if makerWins == isMaker then PollPc.Panicked else PollPc.Lost)
  {
    var o, s0 := DisputeReached(terms, TraderId(terms, isMaker), true);
    s := Do(o, s0, 2, QUIET.(makerWins := makerWins));
    Reached(o, s);
    s' := TellVerdict(s, 3);
  }

  /** Without such a poll a verdict is reached that nobody will be told unless a trader asks again. */
  lemma VerdictCanStayUntold(terms: Terms, makerWins: bool) returns (s: Trade)
    requires TradersDiffer(terms)
    ensures Reachable(s) && s.terms == terms && s.row.Some? && s.row.value.escrowOngoing == 0
    ensures s.row.value.escrowWinner == Some(TraderId(terms, makerWins))
    ensures !exists s' :: Leads(s, s') && !DisputeOpenedSince(s, s') && NewlyTold(s, s')
  {
    var o, s0 := DisputeReached(terms, "", false);
    s := Do(o, s0, 2, QUIET.(makerWins := makerWins));
    Reached(o, s);
    VerdictToldIff(s);
  }
}
