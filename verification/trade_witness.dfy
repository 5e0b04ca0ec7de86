/** Runs that show which intended properties fail, and that the bound of the payout lock is exact. */
module TradeWitness {
  import opened Types
  import opened Statements
  import opened Trade
  import Runs
  import opened TradeLock
  import opened TradeSlots
  import opened TradeDrive

  ghost predicate ReadyToPoll(s: Trade) {
    Reachable(s) && s.row.Some? && s.row.value.payoutPsbt.None? && AreHappy(s.row.value)
  }

  lemma BothHappyReached(terms: Terms) returns (o: Trade, s: Trade)
    requires TradersDiffer(terms)
    ensures Init(o) && Leads(o, s)
    ensures ReadyToPoll(s) && s.terms == terms && s.row.value.processing == 0
    ensures s.tasks.Keys == {0, 1, 2} && InsideCount(s) == 0 && AwayCount(s) == 0
    ensures forall id :: id in s.tasks ==> !IsInside(s.tasks[id])
  {
    o := Begin(terms);
    s := DriveConfirmation(o, o, 0);
    s := DriveHappy(o, s, 1, true);
    s := DriveHappy(o, s, 2, false);
    Reached(o, s);
    assert Having(s.tasks, IsInside) == {} && Having(s.tasks, IsTurnedAway) == {};
  }

  lemma CountsAfterPoll(s: Trade, s': Trade, id: nat)
    requires id !in s.tasks && id in s'.tasks && s'.tasks == s.tasks[id := s'.tasks[id]]
    ensures InsideCount(s') == InsideCount(s) + if IsInside(s'.tasks[id]) then 1 else 0
    ensures AwayCount(s') == AwayCount(s) + if IsTurnedAway(s'.tasks[id]) then 1 else 0
  {
    HavingAfter(s.tasks, id, s'.tasks[id], IsInside);
    HavingAfter(s.tasks, id, s'.tasks[id], IsTurnedAway);
  }

  /** The bound is exact: for every n some run has n pollers turned away and n + 1 assembling at
      the same time. So the lock does not make assembly exclusive. */
  lemma {:induction false} LockBoundIsTight(terms: Terms, n: nat) returns (s: Trade)
    requires TradersDiffer(terms)
    ensures ReadyToPoll(s) && s.terms == terms && s.row.value.processing == 1
    ensures forall id :: id in s.tasks ==> id <= 3 + 2 * n
    ensures InsideCount(s) == n + 1 && AwayCount(s) == n
    ensures forall id :: id in s.tasks && IsInside(s.tasks[id]) ==> s.tasks[id].pollPc.Admitted?
  {
    if n == 0 {
      var o, s0 := BothHappyReached(terms);
      s := DrivePoll(o, s0, 3);
      Reached(o, s);
      CountsAfterPoll(s0, s, 3);
    } else {
      var s0 := LockBoundIsTight(terms, n - 1);
      Runs.StaysPut(s0, Next);
      var s1 := DrivePoll(s0, s0, 2 + 2 * n);
      s := DrivePoll(s0, s1, 3 + 2 * n);
      Reached(s0, s);
      CountsAfterPoll(s0, s1, 2 + 2 * n);
      CountsAfterPoll(s1, s, 3 + 2 * n);
    }
  }

  /** Once a second poller is admitted the two traders can be handed different payout PSBTs, and
      the stored one changes. */
  lemma AnswersCanDisagree(terms: Terms, p: Hex, q: Hex) returns (s: Trade)
    requires TradersDiffer(terms)
    ensures Reachable(s) && 3 in s.tasks && 5 in s.tasks
    ensures Answer(s.tasks[3]) == Some(p) && Answer(s.tasks[5]) == Some(q)
  {
    var o, s0 := BothHappyReached(terms);
    s := DrivePoll(o, s0, 3);
    s := DrivePoll(o, s, 4);
    s := DrivePoll(o, s, 5);
    s := DriveAssembly(o, s, 3, p);
    s := DriveAssembly(o, s, 5, q);
    Reached(o, s);
  }

  /** The same without anybody turned away: both pollers read the empty column, one after the other
      is admitted and toggles back, and the second one overwrites what the first one stored. */
  lemma AnswersCanDisagreeInTurn(terms: Terms, p: Hex, q: Hex) returns (s: Trade)
    requires TradersDiffer(terms)
    ensures Reachable(s) && AwayCount(s) == 0 && InsideCount(s) == 0 && 3 in s.tasks && 4 in s.tasks
    ensures Answer(s.tasks[3]) == Some(p) && Answer(s.tasks[4]) == Some(q)
    ensures s.row.Some? && s.row.value.payoutPsbt == Some(q)
  {
    var o, s0 := BothHappyReached(terms);
    var s1 := DrivePollToRead(o, s0, 3);
    var s2 := DrivePollToRead(o, s1, 4);
    var s3 := Do(o, s2, 3, QUIET);
    var s4 := DriveAssembly(o, s3, 3, p);
    var s5 := Do(o, s4, 4, QUIET);
    s := DriveAssembly(o, s5, 4, q);
    Reached(o, s);
    assert s.tasks == s0.tasks[3 := s.tasks[3]][4 := s.tasks[4]];
    var one := s0.(tasks := s0.tasks[3 := s.tasks[3]]);
    CountsAfterPoll(s0, one, 3);
    CountsAfterPoll(one, s, 4);
  }

  /** The race of two submissions of one trader occurs, for both kinds of slot and both traders: the
      slot is filled with one value and then overwritten with the other. */
  lemma SlotIsOverwritten(terms: Terms, kind: Kind, isMaker: bool, u: Hex, v: Hex) returns (s: Trade, s1: Trade, s2: Trade)
    requires TradersDiffer(terms)
    ensures Reachable(s) && s.terms == terms && Race(s, kind, isMaker, 1, 2)
    ensures Next(s, s1) && s1.row.Some? && Slot(s1.row.value, kind, isMaker) == Some(u)
    ensures Next(s1, s2) && s2.row.Some? && Slot(s2.row.value, kind, isMaker) == Some(v)
  {
    var o := Begin(terms);
    s := DriveConfirmation(o, o, 0);
    match kind {
      case SignedPsbts =>
        s := DrivePsbtToCheck(o, s, 1, isMaker, u);
        s := DrivePsbtToCheck(o, s, 2, isMaker, v);
      case PartialSigs =>
        s := DriveSigToCheck(o, s, 1, isMaker, u);
        s := DriveSigToCheck(o, s, 2, isMaker, v);
    }
    Reached(o, s);
    s1, s2 := RaceOverwrites(s, kind, isMaker, 1, 2);
  }
}
