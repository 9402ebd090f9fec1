/** One iteration of the scheduler as the code runs it, and its place in the replicated protocol. */
module SchedulerTick {
  import opened SchedulerJobs
  import opened SchedulerProtocol

  /** What an imported service call does: it returns, raises, or is still running at the time limit. */
  datatype Reply = Returns | Raises | Hangs

  datatype Outcome = Fine | Exception | TimedOut {
    predicate IsFailure() { !Fine? }
  }

  /** Running the jobs of `plan` in order; `log` lists the jobs that returned so far. */
  function Execute(plan: seq<Job>, replies: Job -> Reply, log: seq<Job>): (Outcome, seq<Job>) {
    if plan == [] then (Fine, log)
    else
      match replies(plan[0])
      case Returns => Execute(plan[1..], replies, log + [plan[0]])
      case Hangs => (TimedOut, log)
      case Raises => if Swallowed(plan[0]) then Execute(plan[1..], replies, log) else (Exception, log)
  }

  lemma ExecuteCons(j: Job, rest: seq<Job>, replies: Job -> Reply, log: seq<Job>)
    ensures Execute([j] + rest, replies, log) ==
      match replies(j)
      case Returns => Execute(rest, replies, log + [j])
      case Hangs => (TimedOut, log)
      case Raises => if Swallowed(j) then Execute(rest, replies, log) else (Exception, log)
  {
  }

  /** A call outside any `try`: an exception or the time limit ends the iteration. `rest` is what follows it. */
  method Call(j: Job, replies: Job -> Reply, log: seq<Job>, ghost rest: seq<Job>) returns (o: Outcome, after: seq<Job>)
    requires !Swallowed(j)
    ensures Execute([j] + rest, replies, log) == if o.Fine? then Execute(rest, replies, after) else (o, after)
  {
    ExecuteCons(j, rest, replies, log);
    match replies(j)
    case Returns => return Fine, log + [j];
    case Raises => return Exception, log;
    case Hangs => return TimedOut, log;
  }

  /** A call inside `try ... except Exception`: only the time limit ends the iteration. */
  method CallGuarded(j: Job, replies: Job -> Reply, log: seq<Job>, ghost rest: seq<Job>)
    returns (o: Outcome, after: seq<Job>)
    requires Swallowed(j)
    ensures Execute([j] + rest, replies, log) == if o.Fine? then Execute(rest, replies, after) else (o, after)
  {
    ExecuteCons(j, rest, replies, log);
    match replies(j)
    case Returns => return Fine, log + [j];
    case Raises => return Fine, log;
    case Hangs => return TimedOut, log;
  }

  /** Three such calls in a row. */
  method RunThree(a: Job, b: Job, c: Job, replies: Job -> Reply, log: seq<Job>, ghost rest: seq<Job>)
    returns (o: Outcome, after: seq<Job>)
    requires !Swallowed(a) && !Swallowed(b) && !Swallowed(c)
    ensures Execute([a] + ([b] + ([c] + rest)), replies, log) == if o.Fine? then Execute(rest, replies, after) else (o, after)
  {
    hide Execute;
    o, after := Call(a, replies, log, [b] + ([c] + rest));
    if o.IsFailure() { return; }
    o, after := Call(b, replies, after, [c] + rest);
    if o.IsFailure() { return; }
    o, after := Call(c, replies, after, rest);
  }

  // The plan again, as what is left from a given statement on.

  ghost function FromWinners(n: nat): seq<Job> { if n % 20 == 0 then [WinnerPayments] + [] else [] }

  ghost function FromRetry(n: nat, retry: bool): seq<Job> {
    if retry then [TechnologyRetry] + ([CommunityAuctions] + FromWinners(n)) else [CommunityAuctions] + FromWinners(n)
  }

  ghost function FromSweep(n: nat, retry: bool): seq<Job> {
    [DomainAuctionSweep] + ([SoftwareAuctions] + ([ExpiryNotices] + FromRetry(n, retry)))
  }

  ghost function FromTransfers(n: nat, retry: bool): seq<Job> {
    [TransferOps] + if n % 120 == 0 then [ShowcaseRefresh] + FromSweep(n, retry) else FromSweep(n, retry)
  }

  ghost function FromReconciles(n: nat, retry: bool): seq<Job> {
    if n % 4 == 0
    then [PendingReconcile] + ([TransferReconcile] + ([StalePendingAlerts] + FromTransfers(n, retry)))
    else FromTransfers(n, retry)
  }

  lemma ThreeFirst(a: Job, b: Job, c: Job, rest: seq<Job>)
    ensures [a, b, c] + rest == [a] + ([b] + ([c] + rest))
  {
  }

  lemma PlanFromTheStart(n: nat, retry: bool)
    ensures Plan(n, retry) ==
      [ProvisionRetries] + ([ExpireStaleOrders] + ([RecoverStalePending] + FromReconciles(n, retry)))
  {
    assert forall x: seq<Job> :: [] + x == x;
    ThreeFirst(DomainAuctionSweep, SoftwareAuctions, ExpiryNotices, FromRetry(n, retry));
    ThreeFirst(PendingReconcile, TransferReconcile, StalePendingAlerts, FromTransfers(n, retry));
    ThreeFirst(ProvisionRetries, ExpireStaleOrders, RecoverStalePending, FromReconciles(n, retry));
    assert [WinnerPayments] + [] == [WinnerPayments];
  }

  // ----- which jobs run -----

  /** The job lets the work go on: it returns, or it is one of the three whose exceptions are logged and dropped. */
  predicate GoesOn(j: Job, replies: Job -> Reply) {
    replies(j).Returns? || (replies(j).Raises? && (j == ShowcaseRefresh || j == DomainAuctionSweep || j == TechnologyRetry))
  }

  /** The due job `f` ends the work with `o`: every due job before it went on, and those that returned are logged. */
  ghost predicate StopsAt(f: Job, o: Outcome, log: seq<Job>, plan: seq<Job>, replies: Job -> Reply) {
    && f in plan && !GoesOn(f, replies) && o == (if replies(f).Hangs? then TimedOut else Exception)
    && (forall j :: j in plan && Place(j) < Place(f) ==> GoesOn(j, replies))
    && forall j :: j in log <==> j in plan && Place(j) < Place(f) && replies(j).Returns?
  }

  /** What the work amounts to, for the due jobs in their order. */
  ghost predicate RanDueJobs(o: Outcome, log: seq<Job>, due: seq<Job>, replies: Job -> Reply) {
    && InOrder(log)
    && (o.Fine? <==> forall j :: j in due ==> GoesOn(j, replies))
    && (o.Fine? ==> forall j :: j in log <==> j in due && replies(j).Returns?)
    && (!o.Fine? ==> exists f :: StopsAt(f, o, log, due, replies))
  }

  /** The work went as far as `done`: all of it went on, and what returned is logged. */
  ghost predicate RanSoFar(done: seq<Job>, log: seq<Job>, replies: Job -> Reply) {
    && InOrder(log) && (forall j :: j in done ==> GoesOn(j, replies))
    && forall j :: j in log <==> j in done && replies(j).Returns?
  }

  lemma {:induction false} ExecuteExactly(done: seq<Job>, plan: seq<Job>, replies: Job -> Reply, log: seq<Job>)
    requires InOrder(done + plan) && RanSoFar(done, log, replies)
    ensures RanDueJobs(Execute(plan, replies, log).0, Execute(plan, replies, log).1, done + plan, replies)
    decreases |plan|
  {
    hide Place;
    var all := done + plan;
    if plan == [] {
      assert all == done;
    } else {
      var j, rest := plan[0], plan[1..];
      assert (done + [j]) + rest == all && all[|done|] == j;
      Neighbours(done, j, rest);
      if GoesOn(j, replies) {
        var next := if replies(j).Returns? then log + [j] else log;
        OneMore(done, log, j, replies);
        ExecuteExactly(done + [j], rest, replies, next);
      } else {
        assert StopsAt(j, Execute(plan, replies, log).0, log, all, replies);
      }
    }
  }

  lemma Neighbours(done: seq<Job>, j: Job, rest: seq<Job>)
    requires InOrder((done + [j]) + rest)
    ensures forall i :: i in done ==> Place(i) < Place(j)
    ensures forall i :: i in rest ==> Place(j) < Place(i)
    ensures forall i :: i in (done + [j]) + rest <==> i in done || i == j || i in rest
  {
    hide Place;
    var all := (done + [j]) + rest;
    forall i | i in done
      ensures Place(i) < Place(j)
    {
      var k :| 0 <= k < |done| && done[k] == i;
      assert all[k] == i && all[|done|] == j;
    }
    forall i | i in rest
      ensures Place(j) < Place(i)
    {
      var k :| 0 <= k < |rest| && rest[k] == i;
      assert all[|done| + 1 + k] == i && all[|done|] == j;
    }
  }

  lemma OneMore(done: seq<Job>, log: seq<Job>, j: Job, replies: Job -> Reply)
    requires RanSoFar(done, log, replies) && GoesOn(j, replies) && forall i :: i in done ==> Place(i) < Place(j)
    ensures RanSoFar(done + [j], if replies(j).Returns? then log + [j] else log, replies)
  {
    hide Place, GoesOn;
    assert forall i :: 0 <= i < |log| ==> log[i] in log;
  }

  /** The due job `f` ends the attempt at `n`: those due before it went on, and those that returned are logged. */
  ghost predicate EndsWork(f: Job, o: Outcome, log: seq<Job>, n: nat, retry: bool, replies: Job -> Reply) {
    && Due(f, n, retry) && !GoesOn(f, replies) && o == (if replies(f).Hangs? then TimedOut else Exception)
    && (forall j :: Due(j, n, retry) && Place(j) < Place(f) ==> GoesOn(j, replies))
    && forall j :: j in log <==> Due(j, n, retry) && Place(j) < Place(f) && replies(j).Returns?
  }

  /**
   * The work of the attempt at `n`. Its log is in the order of the jobs. It finishes exactly when every due
   * job goes on, and then the log holds exactly the due jobs that returned. Otherwise the first due job that
   * does not go on ends it.
   */
  ghost predicate DidDueWork(o: Outcome, log: seq<Job>, n: nat, retry: bool, replies: Job -> Reply) {
    && InOrder(log)
    && (o.Fine? <==> forall j :: Due(j, n, retry) ==> GoesOn(j, replies))
    && (o.Fine? ==> forall j :: j in log <==> Due(j, n, retry) && replies(j).Returns?)
    && (!o.Fine? ==> exists f :: EndsWork(f, o, log, n, retry, replies))
  }

  lemma DueWork(o: Outcome, log: seq<Job>, plan: seq<Job>, n: nat, retry: bool, replies: Job -> Reply)
    requires RanDueJobs(o, log, plan, replies) && forall j :: j in plan <==> Due(j, n, retry)
    ensures DidDueWork(o, log, n, retry, replies)
  {
    hide Due, Place, InOrder, GoesOn;
    if !o.Fine? {
      var f :| StopsAt(f, o, log, plan, replies);
      assert EndsWork(f, o, log, n, retry, replies);
    }
  }

  /** Running the plan of `n` is the work due at `n`. */
  lemma PlanIsDueWork(n: nat, retry: bool, replies: Job -> Reply)
    ensures DidDueWork(Execute(Plan(n, retry), replies, []).0, Execute(Plan(n, retry), replies, []).1, n, retry, replies)
  {
    hide Plan, Due, Execute, RanDueJobs, DidDueWork, GoesOn;
    var plan := Plan(n, retry);
    PlanListsDueJobs(n, retry);
    assert [] + plan == plan;
    ExecuteExactly([], plan, replies, []);
    forall j
      ensures Place(j) < 14
    {
      PlacesEnd(j);
    }
    DueWork(Execute(plan, replies, []).0, Execute(plan, replies, []).1, plan, n, retry, replies);
  }

  /**
   * The locked work, statement by statement. It finishes exactly when every due job returns or is one of the
   * three that may fail, and has then had exactly the due jobs that return run, in their order, and advanced
   * the counter by one. Otherwise the first other failure ends it, after the due jobs before it. All told it
   * runs the plan of the next counter value.
   */
  method RunLockedWork(replies: Job -> Reply, tick: nat, retry: bool) returns (o: Outcome, next: nat, log: seq<Job>)
    ensures Execute(Plan(tick + 1, retry), replies, []) == (o, log)
    ensures o.Fine? ==> next == tick + 1
    ensures DidDueWork(o, log, tick + 1, retry, replies)
  {
    hide DidDueWork;
    ghost var n := tick + 1;
    PlanIsDueWork(n, retry, replies);
    ghost var r3 := FromReconciles(n, retry);
    PlanFromTheStart(n, retry);
    next, log := tick, [];
    o, log := RunThree(ProvisionRetries, ExpireStaleOrders, RecoverStalePending, replies, log, r3);
    if o.IsFailure() { return; }
    next := next + 1;
    if next % 4 == 0 {
      o, log := RunThree(PendingReconcile, TransferReconcile, StalePendingAlerts, replies, log, FromTransfers(n, retry));
      if o.IsFailure() { return; }
    }
    o, log := Call(TransferOps, replies, log,
                   if n % 120 == 0 then [ShowcaseRefresh] + FromSweep(n, retry) else FromSweep(n, retry));
    if o.IsFailure() { return; }
    if next % 120 == 0 {
      o, log := CallGuarded(ShowcaseRefresh, replies, log, FromSweep(n, retry));
      if o.IsFailure() { return; }
    }
    o, log := CallGuarded(DomainAuctionSweep, replies, log, [SoftwareAuctions] + ([ExpiryNotices] + FromRetry(n, retry)));
    if o.IsFailure() { return; }
    o, log := Call(SoftwareAuctions, replies, log, [ExpiryNotices] + FromRetry(n, retry));
    if o.IsFailure() { return; }
    o, log := Call(ExpiryNotices, replies, log, FromRetry(n, retry));
    if o.IsFailure() { return; }
    if retry {
      o, log := CallGuarded(TechnologyRetry, replies, log, [CommunityAuctions] + FromWinners(n));
      if o.IsFailure() { return; }
    }
    o, log := Call(CommunityAuctions, replies, log, FromWinners(n));
    if o.IsFailure() { return; }
    if next % 20 == 0 {
      o, log := Call(WinnerPayments, replies, log, []);
    }
  }

  // ----- the iteration in the protocol -----

  /** The events, taken in order from `s`, are all enabled and end in `t`. */
  ghost predicate Leads(s: System, events: seq<Event>, t: System)
    decreases |events|
  {
    if events == [] then s == t
    else Enabled(s, events[0]) && Leads(Next(s, events[0]), events[1..], t)
  }

  lemma LeadsCons(s: System, e: Event, events: seq<Event>, t: System)
    requires Enabled(s, e) && Leads(Next(s, e), events, t)
    ensures Leads(s, [e] + events, t)
  {
  }

  lemma {:induction false} LeadsConcat(s: System, a: seq<Event>, m: System, b: seq<Event>, t: System)
    requires Leads(s, a, m) && Leads(m, b, t)
    ensures Leads(s, a + b, t)
    decreases |a|
  {
    if a == [] {
      assert a + b == b;
    } else {
      LeadsConcat(Next(s, a[0]), a[1..], m, b, t);
      assert (a + b)[1..] == a[1..] + b;
    }
  }

  /** Events that lead from `s` to `t` drive a run from `s` to `t`. */
  lemma {:induction false} LeadsIsRun(s: System, events: seq<Event>, t: System) returns (states: seq<System>)
    requires Leads(s, events, t)
    ensures IsRun(states, events) && states[0] == s && states[|events|] == t
    decreases |events|
  {
    if events == [] {
      states := [s];
    } else {
      var rest := LeadsIsRun(Next(s, events[0]), events[1..], t);
      states := [s] + rest;
      forall i | 0 <= i < |events|
        ensures Enabled(states[i], events[i]) && states[i + 1] == Next(states[i], events[i])
      {
        if i > 0 {
          assert states[i] == rest[i - 1] && states[i + 1] == rest[i - 1 + 1] && events[i] == events[1..][i - 1];
        }
      }
    }
  }

  function ResultOf(o: Outcome): Result {
    match o case Fine => Ticked case Exception => Failed case TimedOut => Kept
  }

  ghost function Marks(n: nat, log: seq<Job>): set<(nat, Job)> {
    set j | j in log :: (n, j)
  }

  /** The replica after its work ended with `o`, having had `log` returned. */
  ghost function Unwound(x: Replica, c: Conn, o: Outcome, log: seq<Job>): Replica {
    Replica(x.tick, Unwinding(c, ResultOf(o)), x.done + Marks(x.tick + 1, log))
  }

  /** Running the rest of a plan is a sequence of protocol steps of the working replica. */
  lemma WorkRun(s: System, r: ReplicaId, replies: Job -> Reply, log: seq<Job>) returns (events: seq<Event>, t: System)
    requires r in s.replicas && s.replicas[r].phase.Working? && s.replicas[r].phase.pc <= |JobsOf(s, r)|
    requires forall j :: j in log ==> (s.replicas[r].tick + 1, j) in s.replicas[r].done
    ensures var x := s.replicas[r];
            var (o, after) := Execute(JobsOf(s, r)[x.phase.pc..], replies, log);
            t == s.(replicas := s.replicas[r := Unwound(x, x.phase.conn, o, after)])
    ensures Leads(s, events, t)
    decreases |JobsOf(s, r)| - s.replicas[r].phase.pc
  {
    var x, plan := s.replicas[r], JobsOf(s, r);
    var pc := x.phase.pc;
    var (o, after) := Execute(plan[pc..], replies, log);
    t := s.(replicas := s.replicas[r := Unwound(x, x.phase.conn, o, after)]);
    var e: Event;
    if pc == |plan| {
      e := WorkEnds(r);
    } else if replies(plan[pc]).Hangs? {
      e := Interrupt(r, Kept);
    } else if replies(plan[pc]).Raises? && !Swallowed(plan[pc]) {
      e := Interrupt(r, Failed);
    } else {
      e := if replies(plan[pc]).Returns? then JobReturns(r) else JobSwallowed(r);
      var m := Next(s, e);
      assert plan[pc..][1..] == plan[pc + 1..];
      var log' := if replies(plan[pc]).Returns? then log + [plan[pc]] else log;
      var rest, t' := WorkRun(m, r, replies, log');
      ExecuteKeepsLog(plan[pc + 1..], replies, log');
      assert replies(plan[pc]).Returns? ==> after[|log|] == plan[pc];
      assert replies(plan[pc]).Returns? ==> (x.tick + 1, plan[pc]) in Marks(x.tick + 1, after);
      assert x.done + Marks(x.tick + 1, after) == m.replicas[r].done + Marks(x.tick + 1, after);
      assert t'.replicas == t.replicas;
      LeadsCons(s, e, rest, t);
      return [e] + rest, t;
    }
    assert x.done + Marks(x.tick + 1, after) == x.done;
    assert Leads(Next(s, e), [], t);
    LeadsCons(s, e, [], t);
    events := [e] + [];
  }

  lemma {:induction false} ExecuteKeepsLog(plan: seq<Job>, replies: Job -> Reply, log: seq<Job>)
    ensures log <= Execute(plan, replies, log).1
  {
    if plan != [] {
      ExecuteKeepsLog(plan[1..], replies, log);
      ExecuteKeepsLog(plan[1..], replies, log + [plan[0]]);
    }
  }

  /** The effect of one iteration of `r` on connection `c`, from what the jobs reply and whether the unlock arrives. */
  ghost function Iterated(s: System, r: ReplicaId, c: Conn, replies: Job -> Reply, releaseReaches: bool): System
    requires r in s.replicas
  {
    var x := s.replicas[r];
    if !CanTake(s.lock, c) then s
    else
      var (o, log) := Execute(JobsOf(s, r), replies, []);
      s.(replicas := s.replicas[r := Replica(if o.Fine? then x.tick + 1 else x.tick, Asleep, x.done + Marks(x.tick + 1, log))],
         lock := if releaseReaches then s.lock else Take(s.lock, c))
  }

  /** From the taking of the lock on. */
  lemma AfterTaking(s: System, r: ReplicaId, c: Conn, replies: Job -> Reply, releaseReaches: bool)
    returns (events: seq<Event>)
    requires r in s.replicas && s.replicas[r].phase.Asleep? && CanTake(s.lock, c)
    requires s.lock.Held? ==> s.lock.depth >= 1
    ensures var working := s.(replicas := s.replicas[r := s.replicas[r].(phase := Working(c, 0))], lock := Take(s.lock, c));
            Leads(working, events, Iterated(s, r, c, replies, releaseReaches))
  {
    var t := Iterated(s, r, c, replies, releaseReaches);
    var s2 := s.(replicas := s.replicas[r := s.replicas[r].(phase := Working(c, 0))], lock := Take(s.lock, c));
    assert JobsOf(s2, r)[0..] == JobsOf(s, r);
    hide Execute, CheckedOut;
    var work, s3 := WorkRun(s2, r, replies, []);
    var e := if releaseReaches then Release(r) else ReleaseFails(r, false, false);
    var s4 := Next(s3, e);
    assert Next(s4, Close(r)).replicas == t.replicas;
    LeadsCons(s4, Close(r), [], t);
    LeadsCons(s3, e, [Close(r)] + [], t);
    LeadsConcat(s2, work, s3, [e] + ([Close(r)] + []), t);
    events := work + ([e] + ([Close(r)] + []));
  }

  /** That effect is a path of the protocol. */
  lemma IterationIsRun(s: System, r: ReplicaId, c: Conn, replies: Job -> Reply, releaseReaches: bool)
    returns (events: seq<Event>)
    requires r in s.replicas && s.replicas[r].phase.Asleep? && !CheckedOut(s, c)
    requires s.lock.Held? ==> s.lock.depth >= 1
    ensures Leads(s, events, Iterated(s, r, c, replies, releaseReaches))
  {
    hide Execute;
    var x, t := s.replicas[r], Iterated(s, r, c, replies, releaseReaches);
    var s1 := Next(s, Open(r, c));
    var s2 := Next(s1, TryLock(r));
    if !CanTake(s.lock, c) {
      assert Next(s2, Close(r)).replicas == s.replicas[r := x] == s.replicas;
      LeadsCons(s2, Close(r), [], t);
      events := [Close(r)] + [];
    } else {
      events := AfterTaking(s, r, c, replies, releaseReaches);
      assert s2.replicas == s.replicas[r := x.(phase := Working(c, 0))];
    }
    LeadsCons(s1, TryLock(r), events, t);
    LeadsCons(s, Open(r, c), [TryLock(r)] + events, t);
    events := [Open(r, c)] + ([TryLock(r)] + events);
  }

  class AdvisoryLock {
    var state: Lock

    constructor ()
      ensures state == Free
    {
      state := Free;
    }

    /** `SELECT pg_try_advisory_lock(:key)` on connection `c`. */
    method TryAcquire(c: Conn) returns (locked: bool)
      modifies this
      ensures locked == CanTake(old(state), c)
      ensures state == if locked then Take(old(state), c) else old(state)
    {
      locked := CanTake(state, c);
      if locked {
        state := Take(state, c);
      }
    }

    /** `SELECT pg_advisory_unlock(:key)` on connection `c`. */
    method ReleaseBy(c: Conn)
      modifies this
      ensures state == Unlock(old(state), c)
    {
      state := Unlock(state, c);
    }
  }

  /**
   * One iteration on lock connection `c`: try the lock, run the work, release in any case, and keep the
   * counter unless the work returned. `releaseReaches` says whether the unlock gets to the server. The
   * counter and the lock end as the protocol's iteration, from any system state `s` it may start in.
   */
  method SchedulerIteration(lock: AdvisoryLock, c: Conn, replies: Job -> Reply, tick: nat, retry: bool,
                            releaseReaches: bool, ghost s: System, ghost r: ReplicaId)
    returns (next: nat, log: seq<Job>)
    requires s.lock == lock.state && s.plan(tick + 1) == Plan(tick + 1, retry)
    requires r in s.replicas && s.replicas[r].phase.Asleep? && s.replicas[r].tick == tick
    requires lock.state.Held? ==> lock.state.depth >= 1
    modifies lock
    ensures var t := Iterated(s, r, c, replies, releaseReaches);
            t.lock == lock.state && t.replicas[r] == Replica(next, Asleep, s.replicas[r].done + Marks(tick + 1, log))
  {
    hide DidDueWork;
    var locked := lock.TryAcquire(c);
    if !locked {
      next, log := tick, [];
      assert Marks(tick + 1, log) == {};
      return;
    }
    var o: Outcome;
    o, next, log := RunLockedWork(replies, tick, retry);
    if !o.Fine? {
      next := tick;
    }
    if releaseReaches {
      lock.ReleaseBy(c);
    }
  }
}
