/**
 * The replicated scheduler as a transition system: any number of API replicas, one session-level
 * Postgres advisory lock. A lock belongs to a backend connection, is re-entrant on it, and outlives
 * the checkout of that connection from its pool.
 */
module SchedulerProtocol {
  import opened SchedulerJobs

  type ReplicaId = nat
  type Conn = nat

  /** How an iteration ends: with the next counter value, or leaving the counter as it was. */
  datatype Result = Ticked | Kept | Failed | Cancelled

  datatype Phase =
    | Asleep
    | Opened(conn: Conn)                  // lock session open, lock not requested yet
    | Working(conn: Conn, pc: nat)        // inside the locked work; `pc` jobs are behind it
    | Unwinding(conn: Conn, res: Result)  // in the `finally` block, about to release
    | Closing(conn: Conn, res: Result)    // leaving the lock session
    | Stopped

  /** `done` records every job that returned normally, with the counter value it ran for. */
  datatype Replica = Replica(tick: nat, phase: Phase, done: set<(nat, Job)>)

  datatype Lock = Free | Held(owner: Conn, depth: nat)

  /** `plan(n)` lists the jobs of the attempt that would advance a counter to `n`. */
  datatype System = System(replicas: map<ReplicaId, Replica>, lock: Lock, plan: nat -> seq<Job>)

  datatype Event =
    | Open(r: ReplicaId, c: Conn)
    | TryLock(r: ReplicaId)
    | LockRaises(r: ReplicaId, taken: bool, why: Result)
    | JobReturns(r: ReplicaId)
    | JobSwallowed(r: ReplicaId)
    | Interrupt(r: ReplicaId, why: Result)    // timeout, exception or cancellation during the work
    | WorkEnds(r: ReplicaId)
    | Release(r: ReplicaId)
    | ReleaseFails(r: ReplicaId, unlocked: bool, cancelled: bool)
    | Close(r: ReplicaId)
    | CloseRaises(r: ReplicaId)
    | CancelAsleep(r: ReplicaId)
    | Lose(c: Conn)                           // the backend of connection `c` goes away

  // ----- the lock -----

  predicate CanTake(l: Lock, c: Conn) { l.Free? || l.owner == c }

  function Take(l: Lock, c: Conn): Lock
    requires CanTake(l, c)
  {
    if l.Free? then Held(c, 1) else Held(c, l.depth + 1)
  }

  function Unlock(l: Lock, c: Conn): Lock {
    if l.Free? || l.owner != c then l
    else if l.depth <= 1 then Free else Held(c, l.depth - 1)
  }

  function Drop(l: Lock, c: Conn): Lock {
    if l.Held? && l.owner == c then Free else l
  }

  // ----- steps -----

  predicate HasConn(p: Phase) { p.Opened? || p.Working? || p.Unwinding? || p.Closing? }

  predicate Protected(p: Phase) { p.Working? || p.Unwinding? }

  predicate CheckedOut(s: System, c: Conn) {
    exists r :: r in s.replicas && HasConn(s.replicas[r].phase) && s.replicas[r].phase.conn == c
  }

  function JobsOf(s: System, r: ReplicaId): seq<Job>
    requires r in s.replicas
  {
    s.plan(s.replicas[r].tick + 1)
  }

  predicate Enabled(s: System, e: Event) {
    if e.Lose? then true
    else
      e.r in s.replicas &&
      var p := s.replicas[e.r].phase;
      match e
      case Open(_, c) => p.Asleep? && !CheckedOut(s, c)
      case TryLock(_) => p.Opened?
      case LockRaises(_, taken, why) =>
        p.Opened? && (why.Failed? || why.Cancelled?) && (taken ==> CanTake(s.lock, p.conn))
      case JobReturns(r) => p.Working? && p.pc < |JobsOf(s, r)|
      case JobSwallowed(r) => p.Working? && p.pc < |JobsOf(s, r)| && Swallowed(JobsOf(s, r)[p.pc])
      case Interrupt(_, why) => p.Working? && !why.Ticked?
      case WorkEnds(r) => p.Working? && p.pc == |JobsOf(s, r)|
      case Release(_) => p.Unwinding?
      case ReleaseFails(_, _, _) => p.Unwinding?
      case Close(_) => p.Closing?
      case CloseRaises(_) => p.Closing?
      case CancelAsleep(_) => p.Asleep?
      case Lose(_) => true
  }

  function SetPhase(s: System, r: ReplicaId, p: Phase): System
    requires r in s.replicas
  {
    s.(replicas := s.replicas[r := s.replicas[r].(phase := p)])
  }

  function Finish(x: Replica, res: Result): Replica {
    match res
    case Ticked => x.(tick := x.tick + 1, phase := Asleep)
    case Cancelled => x.(phase := Stopped)
    case _ => x.(phase := Asleep)
  }

  function Next(s: System, e: Event): System
    requires Enabled(s, e)
  {
    match e
    case Lose(c) => s.(lock := Drop(s.lock, c))
    case Open(r, c) => SetPhase(s, r, Opened(c))
    case TryLock(r) =>
      var c := s.replicas[r].phase.conn;
      if CanTake(s.lock, c)
      then SetPhase(s, r, Working(c, 0)).(lock := Take(s.lock, c))
      else SetPhase(s, r, Closing(c, Kept))
    case LockRaises(r, taken, why) =>
      var c := s.replicas[r].phase.conn;
      SetPhase(s, r, Closing(c, why)).(lock := if taken then Take(s.lock, c) else s.lock)
    case JobReturns(r) =>
      var x := s.replicas[r];
      var j := JobsOf(s, r)[x.phase.pc];
      s.(replicas := s.replicas[r := x.(phase := Working(x.phase.conn, x.phase.pc + 1),
                                        done := x.done + {(x.tick + 1, j)})])
    case JobSwallowed(r) =>
      var p := s.replicas[r].phase;
      SetPhase(s, r, Working(p.conn, p.pc + 1))
    case Interrupt(r, why) => SetPhase(s, r, Unwinding(s.replicas[r].phase.conn, why))
    case WorkEnds(r) => SetPhase(s, r, Unwinding(s.replicas[r].phase.conn, Ticked))
    case Release(r) =>
      var p := s.replicas[r].phase;
      SetPhase(s, r, Closing(p.conn, p.res)).(lock := Unlock(s.lock, p.conn))
    case ReleaseFails(r, unlocked, cancelled) =>
      var p := s.replicas[r].phase;
      SetPhase(s, r, Closing(p.conn, if cancelled then Cancelled else p.res))
      .(lock := if unlocked then Unlock(s.lock, p.conn) else s.lock)
    case Close(r) =>
      var x := s.replicas[r];
      s.(replicas := s.replicas[r := Finish(x, x.phase.res)])
    case CloseRaises(r) =>
      var x := s.replicas[r];
      s.(replicas := s.replicas[r := Finish(x, if x.phase.res.Cancelled? then Cancelled else Failed)])
    case CancelAsleep(r) => SetPhase(s, r, Stopped)
  }

  ghost predicate Init(s: System) {
    s.lock.Free? && forall r :: r in s.replicas ==> s.replicas[r] == Replica(0, Asleep, {})
  }

  /** `states` is a run of the system driven by `events`. */
  ghost predicate IsRun(states: seq<System>, events: seq<Event>) {
    && |states| == |events| + 1
    && forall i :: 0 <= i < |events| ==>
         Enabled(states[i], events[i]) && states[i + 1] == Next(states[i], events[i])
  }

  /** The event does not take the backend away from a replica inside the work. */
  predicate KeepsBackends(s: System, e: Event) {
    e.Lose? ==> forall r :: r in s.replicas && s.replicas[r].phase.Working? ==> s.replicas[r].phase.conn != e.c
  }

  ghost predicate NoLostWorker(states: seq<System>, events: seq<Event>)
    requires |states| == |events| + 1
  {
    forall i :: 0 <= i < |events| ==> KeepsBackends(states[i], events[i])
  }

  // ----- connections -----

  /** Connections are checked out by one replica at a time, and a held lock is held at least once. */
  ghost predicate Connections(s: System) {
    && (forall r, q :: r in s.replicas && q in s.replicas && r != q
                       && HasConn(s.replicas[r].phase) && HasConn(s.replicas[q].phase)
                       ==> s.replicas[r].phase.conn != s.replicas[q].phase.conn)
    && (s.lock.Held? ==> s.lock.depth >= 1)
  }

  lemma ConnectionsStep(s: System, e: Event)
    requires Connections(s) && Enabled(s, e)
    ensures Connections(Next(s, e))
  {
    hide JobsOf, Swallowed;
  }

  lemma ConnectionsAlways(states: seq<System>, events: seq<Event>, k: nat)
    requires IsRun(states, events) && Connections(states[0]) && k < |states|
    ensures Connections(states[k])
  {
    hide Connections, Enabled, Next;
    if k > 0 {
      ConnectionsAlways(states, events, k - 1);
      ConnectionsStep(states[k - 1], events[k - 1]);
    }
  }

  // ----- mutual exclusion -----

  ghost predicate OwnsLock(s: System, r: ReplicaId) {
    r in s.replicas && HasConn(s.replicas[r].phase) && s.lock.Held? && s.lock.owner == s.replicas[r].phase.conn
  }

  /** A working replica's own connection owns the lock. */
  ghost predicate LockInv(s: System) {
    Connections(s) && forall r :: r in s.replicas && s.replicas[r].phase.Working? ==> OwnsLock(s, r)
  }

  lemma LockStep(s: System, e: Event)
    requires LockInv(s) && Enabled(s, e) && KeepsBackends(s, e)
    ensures LockInv(Next(s, e))
  {
    ConnectionsStep(s, e);
    hide JobsOf, Swallowed, CheckedOut;
    var t := Next(s, e);
    forall r | r in t.replicas && t.replicas[r].phase.Working?
      ensures OwnsLock(t, r)
    {
      assert e.Lose? || r != e.r ==> t.replicas[r] == s.replicas[r] && OwnsLock(s, r);
    }
  }

  lemma LockAlways(states: seq<System>, events: seq<Event>, k: nat)
    requires IsRun(states, events) && LockInv(states[0]) && NoLostWorker(states, events) && k < |states|
    ensures LockInv(states[k])
  {
    hide LockInv, Enabled, Next, KeepsBackends;
    if k > 0 {
      LockAlways(states, events, k - 1);
      LockStep(states[k - 1], events[k - 1]);
    }
  }

  /**
   * In every interleaving at most one replica is inside the scheduler work, and its own lock session
   * owns the lock; timeouts, failures, cancellations, failed releases and connections lost outside the
   * work included.
   */
  lemma MutualExclusion(states: seq<System>, events: seq<Event>, k: nat, r: ReplicaId, q: ReplicaId)
    requires IsRun(states, events) && Init(states[0]) && NoLostWorker(states, events) && k < |states|
    requires r in states[k].replicas && states[k].replicas[r].phase.Working?
    ensures states[k].lock.Held? && states[k].lock.owner == states[k].replicas[r].phase.conn
    ensures q in states[k].replicas && q != r ==> !states[k].replicas[q].phase.Working?
  {
    LockAlways(states, events, k);
    assert forall x :: x in states[k].replicas && states[k].replicas[x].phase.Working? ==> OwnsLock(states[k], x);
  }

  /**
   * The backend hypothesis is needed everywhere: from any reachable situation with a worker, losing its
   * backend lets every other sleeping replica with a spare connection walk in beside it.
   */
  lemma LostBackendBreaksExclusion(s: System, r: ReplicaId, q: ReplicaId, c: Conn)
    requires LockInv(s) && r in s.replicas && s.replicas[r].phase.Working?
    requires q in s.replicas && s.replicas[q].phase.Asleep? && !CheckedOut(s, c)
    ensures var s1 := Next(s, Lose(s.replicas[r].phase.conn));
            Enabled(s1, Open(q, c)) &&
            var s2 := Next(s1, Open(q, c));
            Enabled(s2, TryLock(q)) &&
            var s3 := Next(s2, TryLock(q));
            s3.replicas[r].phase.Working? && s3.replicas[q].phase.Working?
  {
    assert OwnsLock(s, r);
  }

  // ----- orphaned locks -----

  /** The lock is owned beyond what the replica using connection `c`, if any, will give back. */
  ghost predicate Orphaned(s: System, c: Conn) {
    && Connections(s)
    && s.lock.Held? && s.lock.owner == c
    && ((exists r :: r in s.replicas && ProtectedOn(s.replicas[r].phase, c)) ==> s.lock.depth >= 2)
  }

  predicate ProtectedOn(p: Phase, c: Conn) { Protected(p) && p.conn == c }

  lemma OrphanStep(s: System, e: Event, c: Conn)
    requires Orphaned(s, c) && Enabled(s, e) && e != Lose(c)
    ensures Orphaned(Next(s, e), c)
  {
    ConnectionsStep(s, e);
    hide JobsOf, Swallowed, CheckedOut;
    var t := Next(s, e);
    if !e.Lose? {
      assert forall q :: q in t.replicas && q != e.r ==> t.replicas[q] == s.replicas[q];
      if ProtectedOn(s.replicas[e.r].phase, c) {
        assert forall q :: q in s.replicas && q != e.r ==> !ProtectedOn(s.replicas[q].phase, c);
      }
    }
  }

  /** Whoever works on another connection than `c` already worked on it in `s`. */
  ghost predicate NoneJoined(s: System, t: System, c: Conn) {
    forall r :: r in t.replicas && t.replicas[r].phase.Working? && t.replicas[r].phase.conn != c ==> WorkedOn(s, r, t.replicas[r].phase.conn)
  }

  predicate WorkedOn(s: System, r: ReplicaId, c: Conn) {
    r in s.replicas && s.replicas[r].phase.Working? && s.replicas[r].phase.conn == c
  }

  lemma NobodyJoins(s: System, e: Event, c: Conn)
    requires Orphaned(s, c) && Enabled(s, e)
    ensures NoneJoined(s, Next(s, e), c)
  {
    hide JobsOf, Swallowed, CheckedOut;
  }

  /**
   * A lock left behind by a failed release never heals by itself: until its own backend is lost, whatever
   * else is lost, it stays owned by the same connection, through every re-entrant reuse of that connection
   * from the pool. No replica on another connection is let in again: whoever works on one did so before.
   */
  lemma {:induction false} OrphanNeverHeals(states: seq<System>, events: seq<Event>, c: Conn, k: nat)
    requires IsRun(states, events) && Orphaned(states[0], c)
    requires Lose(c) !in events && k < |states|
    ensures Orphaned(states[k], c) && NoneJoined(states[0], states[k], c)
    ensures LockInv(states[0]) ==>
              forall r :: r in states[k].replicas && states[k].replicas[r].phase.Working? ==> states[k].replicas[r].phase.conn == c
  {
    hide Enabled, Next, Connections;
    if k > 0 {
      OrphanNeverHeals(states, events, c, k - 1);
      assert events[k - 1] in events;
      OrphanStep(states[k - 1], events[k - 1], c);
      NobodyJoins(states[k - 1], events[k - 1], c);
    }
    if LockInv(states[0]) {
      WorkersOn(states[0], states[k], c);
    }
  }

  lemma WorkersOn(s: System, t: System, c: Conn)
    requires LockInv(s) && Orphaned(s, c) && NoneJoined(s, t, c)
    ensures forall r :: r in t.replicas && t.replicas[r].phase.Working? ==> t.replicas[r].phase.conn == c
  {
    assert forall r, d :: WorkedOn(s, r, d) ==> OwnsLock(s, r) && d == c;
  }

  /** The event loses a reply: a release that never reached the server, or an acquire that did and raised. */
  predicate LosesReply(e: Event) { (e.ReleaseFails? && !e.unlocked) || (e.LockRaises? && e.taken) }

  /** A lost reply leaves an orphan, exactly when the replica's connection still owned the lock or took it. */
  lemma LostRepliesOrphan(s: System, e: Event)
    requires Connections(s) && Enabled(s, e) && LosesReply(e)
    ensures Orphaned(Next(s, e), s.replicas[e.r].phase.conn) <==> e.LockRaises? || OwnsLock(s, e.r)
  {
    ConnectionsStep(s, e);
    hide JobsOf, Swallowed, CheckedOut;
    var c := s.replicas[e.r].phase.conn;
    assert forall q :: q in s.replicas && q != e.r ==> !ProtectedOn(s.replicas[q].phase, c);
  }

  /** A held lock is held once, by a replica that will give it back. */
  ghost predicate Owned(s: System) {
    s.lock.Held? ==> s.lock.depth == 1 && exists r :: r in s.replicas && ProtectedOn(s.replicas[r].phase, s.lock.owner)
  }

  lemma OwnedStep(s: System, e: Event)
    requires Connections(s) && Owned(s) && Enabled(s, e) && !LosesReply(e)
    ensures Owned(Next(s, e))
  {
    hide JobsOf, Swallowed, CheckedOut;
    var t := Next(s, e);
    if t.lock.Held? {
      if s.lock.Free? {
        assert ProtectedOn(t.replicas[e.r].phase, t.lock.owner);
      } else {
        var r :| r in s.replicas && ProtectedOn(s.replicas[r].phase, s.lock.owner);
        HolderKept(s, e, r);
      }
    }
  }

  /** While the lock stays held, its holder stays the same and the depth stays 1. */
  lemma HolderKept(s: System, e: Event, r: ReplicaId)
    requires Connections(s) && s.lock.Held? && s.lock.depth == 1
    requires r in s.replicas && ProtectedOn(s.replicas[r].phase, s.lock.owner)
    requires Enabled(s, e) && !LosesReply(e) && Next(s, e).lock.Held?
    ensures var t := Next(s, e);
            t.lock.depth == 1 && r in t.replicas && ProtectedOn(t.replicas[r].phase, t.lock.owner)
  {
    hide JobsOf, Swallowed, CheckedOut;
    assert forall q :: q in s.replicas && q != r && HasConn(s.replicas[q].phase) ==> s.replicas[q].phase.conn != s.lock.owner;
  }

  /**
   * Nothing else leaves one: in a run without lost replies, lost backends or not, whenever the lock is held
   * it is held once, by a replica between its acquire and its release. So an attempt that ends, however it
   * ends, gives the lock back.
   */
  lemma {:induction false} NoOrphans(states: seq<System>, events: seq<Event>, k: nat)
    requires IsRun(states, events) && Init(states[0]) && k < |states|
    requires forall i :: 0 <= i < |events| ==> !LosesReply(events[i])
    ensures Owned(states[k])
  {
    if k > 0 {
      NoOrphans(states, events, k - 1);
      ConnectionsAlways(states, events, k - 1);
      OwnedStep(states[k - 1], events[k - 1]);
    }
  }

  // ----- cadence -----

  /** Job `j` is behind an attempt at number `n`: it returned, or its exception is one that is dropped. */
  predicate Behind(x: Replica, n: nat, j: Job) { Swallowed(j) || (n, j) in x.done }

  ghost predicate AllBehind(x: Replica, n: nat, jobs: seq<Job>) {
    forall i :: 0 <= i < |jobs| ==> Behind(x, n, jobs[i])
  }

  ghost predicate PastBehind(x: Replica, plan: nat -> seq<Job>) {
    forall n :: 1 <= n <= x.tick ==> AllBehind(x, n, plan(n))
  }

  /** What the phase of an attempt says about its plan. */
  ghost predicate PhaseServed(x: Replica, plan: seq<Job>) {
    && (x.phase.Working? ==> x.phase.pc <= |plan| && AllBehind(x, x.tick + 1, plan[..x.phase.pc]))
    && ((x.phase.Unwinding? || x.phase.Closing?) && x.phase.res.Ticked? ==> AllBehind(x, x.tick + 1, plan))
  }

  ghost predicate Served(x: Replica, plan: nat -> seq<Job>) {
    PastBehind(x, plan) && PhaseServed(x, plan(x.tick + 1))
  }

  ghost predicate CadenceInv(s: System) {
    forall r :: r in s.replicas ==> Served(s.replicas[r], s.plan)
  }

  lemma CadenceStep(s: System, e: Event)
    requires CadenceInv(s) && Enabled(s, e)
    ensures CadenceInv(Next(s, e))
    ensures Next(s, e).replicas.Keys == s.replicas.Keys && Next(s, e).plan == s.plan
  {
    if !e.Lose? {
      var t := Next(s, e);
      var x, y := s.replicas[e.r], t.replicas[e.r];
      assert forall q :: q in s.replicas && q != e.r ==> t.replicas[q] == s.replicas[q];
      ReplicaServed(s, e, x, y);
    }
  }

  /** How an event moves its replica, given the plan of the attempt under way. */
  ghost predicate Moves(x: Replica, y: Replica, plan: seq<Job>) {
    && x.done <= y.done
    && (y.tick == x.tick || (y.tick == x.tick + 1 && x.phase.Closing? && x.phase.res.Ticked?))
    && (y.phase.Working? ==>
          y.tick == x.tick && (y.phase.pc == 0
          || (x.phase.Working? && y.phase.pc == x.phase.pc + 1 <= |plan| && Behind(y, x.tick + 1, plan[x.phase.pc]))))
    && ((y.phase.Unwinding? || y.phase.Closing?) && y.phase.res.Ticked? ==>
          y.tick == x.tick && ((x.phase.Working? && x.phase.pc == |plan|) || (x.phase.Unwinding? && x.phase.res.Ticked?)))
  }

  lemma EventMoves(s: System, e: Event)
    requires Enabled(s, e) && !e.Lose?
    ensures Moves(s.replicas[e.r], Next(s, e).replicas[e.r], JobsOf(s, e.r))
  {
  }

  lemma PhaseStep(x: Replica, y: Replica, plan: seq<Job>)
    requires PhaseServed(x, plan) && Moves(x, y, plan)
    ensures y.tick == x.tick ==> PhaseServed(y, plan)
    ensures y.tick == x.tick + 1 ==> AllBehind(y, y.tick, plan) && !y.phase.Working?
  {
  }

  lemma ReplicaServed(s: System, e: Event, x: Replica, y: Replica)
    requires CadenceInv(s) && Enabled(s, e) && !e.Lose?
    requires x == s.replicas[e.r] && y == Next(s, e).replicas[e.r]
    ensures Served(y, s.plan)
  {
    var plan := s.plan;
    assert Served(x, plan);
    EventMoves(s, e);
    PhaseStep(x, y, JobsOf(s, e.r));
    forall n | 1 <= n <= y.tick
      ensures AllBehind(y, n, plan(n))
    {
      if n <= x.tick {
        BehindKept(x, y, plan(n));
      }
    }
  }

  lemma BehindKept(x: Replica, y: Replica, jobs: seq<Job>)
    requires x.done <= y.done
    ensures forall n :: AllBehind(x, n, jobs) ==> AllBehind(y, n, jobs)
  {
  }

  lemma CadenceAlways(states: seq<System>, events: seq<Event>, k: nat)
    requires IsRun(states, events) && CadenceInv(states[0]) && k < |states|
    ensures CadenceInv(states[k])
    ensures states[k].replicas.Keys == states[0].replicas.Keys
    ensures states[k].plan == states[0].plan
  {
    if k > 0 {
      CadenceAlways(states, events, k - 1);
      CadenceStep(states[k - 1], events[k - 1]);
    }
  }

  /**
   * No due work is ever skipped: for every number up to a replica's counter, every job due at that
   * number either returned in an attempt made for exactly that number or is one whose failures are
   * dropped. Holds in every run, lost backends included.
   */
  lemma AtLeastOnce(states: seq<System>, events: seq<Event>, k: nat, r: ReplicaId, n: nat)
    requires IsRun(states, events) && Init(states[0]) && k < |states|
    requires r in states[k].replicas && 1 <= n <= states[k].replicas[r].tick
    ensures AllReturned(states[k].replicas[r], n, states[0].plan(n))
  {
    CadenceAlways(states, events, k);
    ServedJobs(states[k].replicas[r], n, states[0].plan(n));
  }

  /** Every job of `plan` returned in an attempt made for `n`, except the ones whose failures are dropped. */
  ghost predicate AllReturned(x: Replica, n: nat, plan: seq<Job>) {
    forall j :: j in plan && !Swallowed(j) ==> (n, j) in x.done
  }

  /** Every due job returned in an attempt made for `n`, but for the three whose failures are dropped. */
  ghost predicate DueJobsReturned(x: Replica, n: nat, retry: bool) {
    forall j :: Due(j, n, retry) && j != ShowcaseRefresh && j != DomainAuctionSweep && j != TechnologyRetry ==> (n, j) in x.done
  }

  /**
   * For the plan of the source: a counter passes a number only if every job due at it returned, the three
   * droppable ones aside; so a multiple of 4 only if all three reconcile calls did, and a multiple of 20 only
   * if the winner-payment lifecycle did.
   */
  lemma DueJobsNeverSkipped(states: seq<System>, events: seq<Event>, k: nat, r: ReplicaId, n: nat, retry: bool)
    requires IsRun(states, events) && Init(states[0]) && k < |states|
    requires states[0].plan(n) == Plan(n, retry)
    requires r in states[k].replicas && 1 <= n <= states[k].replicas[r].tick
    ensures DueJobsReturned(states[k].replicas[r], n, retry)
  {
    AtLeastOnce(states, events, k, r, n);
    PlanReturned(states[k].replicas[r], n, retry, states[0].plan(n));
  }

  lemma PlanReturned(x: Replica, n: nat, retry: bool, plan: seq<Job>)
    requires AllReturned(x, n, plan) && plan == Plan(n, retry)
    ensures DueJobsReturned(x, n, retry)
  {
    hide Plan, Due, Place;
    PlanListsDueJobs(n, retry);
    forall j | Due(j, n, retry)
      ensures j in plan
    {
      PlacesEnd(j);
    }
  }

  lemma PlacesEnd(j: Job)
    ensures Place(j) < 14
  {
  }

  lemma ServedJobs(x: Replica, n: nat, plan: seq<Job>)
    requires AllBehind(x, n, plan)
    ensures AllReturned(x, n, plan)
  {
  }

  // ----- attempts -----

  /** Replica `r` is inside the work of the attempt at number `n`. */
  predicate WorkingAt(s: System, r: ReplicaId, n: nat) {
    r in s.replicas && s.replicas[r].phase.Working? && s.replicas[r].tick + 1 == n
  }

  /** Event `m` puts position `p` of the plan behind the attempt: its job returns, or its exception is dropped. */
  predicate Passes(s: System, e: Event, r: ReplicaId, n: nat, p: nat) {
    && WorkingAt(s, r, n) && s.replicas[r].phase.pc == p < |s.plan(n)|
    && (e == JobReturns(r) || (e == JobSwallowed(r) && Swallowed(s.plan(n)[p])))
  }

  ghost predicate PassedBetween(states: seq<System>, events: seq<Event>, r: ReplicaId, n: nat, p: nat, i: nat, j: nat)
    requires |states| == |events| + 1 && j <= |events|
  {
    exists m :: i < m < j && Passes(states[m], events[m], r, n, p)
  }

  /** Between events `i` and `j` replica `r` is inside the work for `n`, and the first `pc` positions are passed. */
  ghost predicate Under(states: seq<System>, events: seq<Event>, r: ReplicaId, n: nat, pc: nat, i: nat, j: nat)
    requires |states| == |events| + 1 && j <= |events|
  {
    && i < j && events[i] == TryLock(r)
    && (forall m :: i < m <= j ==> WorkingAt(states[m], r, n))
    && forall p: nat :: p < pc ==> PassedBetween(states, events, r, n, p, i, j)
  }

  /** One attempt at `n`: it takes the lock at `i`, stays inside the work, passes the whole plan, and ends at `j`. */
  ghost predicate Attempt(states: seq<System>, events: seq<Event>, r: ReplicaId, n: nat, i: nat, j: nat)
    requires |states| == |events| + 1
  {
    j < |events| && Under(states, events, r, n, |states[0].plan(n)|, i, j) && events[j] == WorkEnds(r)
  }

  /** The phase of `r` tells where its attempt began. */
  ghost predicate SinceLock(states: seq<System>, events: seq<Event>, k: nat, r: ReplicaId)
    requires |states| == |events| + 1 && k <= |events|
  {
    r in states[k].replicas && states[k].replicas[r].phase.Working? ==>
      Started(states, events, r, states[k].replicas[r].tick + 1, states[k].replicas[r].phase.pc, k)
  }

  ghost predicate Started(states: seq<System>, events: seq<Event>, r: ReplicaId, n: nat, pc: nat, k: nat)
    requires |states| == |events| + 1 && k <= |events|
  {
    exists i :: 0 <= i < k && Under(states, events, r, n, pc, i, k)
  }

  lemma UnderGoesOn(states: seq<System>, events: seq<Event>, r: ReplicaId, n: nat, pc: nat, pc': nat, i: nat, k: nat)
    requires |states| == |events| + 1 && k < |events| && Under(states, events, r, n, pc, i, k)
    requires WorkingAt(states[k + 1], r, n)
    requires pc' == pc || (pc' == pc + 1 && Passes(states[k], events[k], r, n, pc))
    ensures Under(states, events, r, n, pc', i, k + 1)
  {
    hide WorkingAt, Passes;
    var next := k + 1;
    forall p: nat | p < pc'
      ensures PassedBetween(states, events, r, n, p, i, next)
    {
      if p < pc {
        assert PassedBetween(states, events, r, n, p, i, k);
      } else {
        assert Passes(states[k], events[k], r, n, p);
      }
    }
  }

  /** How a step leaves a replica inside the work: it just took the lock, or it was inside and maybe passed a position. */
  lemma WorkingStep(s: System, e: Event, r: ReplicaId)
    requires Enabled(s, e) && r in Next(s, e).replicas && Next(s, e).replicas[r].phase.Working?
    ensures var y := Next(s, e).replicas[r];
      || (e == TryLock(r) && y.phase.pc == 0)
      || (WorkingAt(s, r, y.tick + 1) && y.phase.pc == s.replicas[r].phase.pc)
      || (WorkingAt(s, r, y.tick + 1) && y.phase.pc == s.replicas[r].phase.pc + 1
          && Passes(s, e, r, y.tick + 1, s.replicas[r].phase.pc))
  {
    hide CheckedOut;
  }

  lemma {:induction false} WorkingSince(states: seq<System>, events: seq<Event>, k: nat, r: ReplicaId)
    requires IsRun(states, events) && Init(states[0]) && k <= |events|
    ensures SinceLock(states, events, k, r)
  {
    hide Enabled, Next, Under;
    if k > 0 && r in states[k].replicas && states[k].replicas[r].phase.Working? {
      WorkingSince(states, events, k - 1, r);
      WorkingStep(states[k - 1], events[k - 1], r);
      var n, pc := states[k].replicas[r].tick + 1, states[k].replicas[r].phase.pc;
      if events[k - 1] == TryLock(r) && pc == 0 {
        UnderStarts(states, events, r, n, k - 1);
      } else {
        var was := states[k - 1].replicas[r].phase.pc;
        var i :| 0 <= i < k - 1 && Under(states, events, r, n, was, i, k - 1);
        UnderGoesOn(states, events, r, n, was, pc, i, k - 1);
      }
    }
  }

  lemma UnderStarts(states: seq<System>, events: seq<Event>, r: ReplicaId, n: nat, i: nat)
    requires |states| == |events| + 1 && i < |events| && events[i] == TryLock(r) && WorkingAt(states[i + 1], r, n)
    ensures Under(states, events, r, n, 0, i, i + 1)
  {
  }

  ghost predicate Attempted(states: seq<System>, events: seq<Event>, k: nat, r: ReplicaId, n: nat)
    requires |states| == |events| + 1
  {
    exists i, j :: 0 <= i < j < k && Attempt(states, events, r, n, i, j)
  }

  /** Every number up to the counter has its attempt, and so has the one about to be counted. */
  ghost predicate CountedAttempts(states: seq<System>, events: seq<Event>, k: nat, r: ReplicaId)
    requires |states| == |events| + 1 && k <= |events|
  {
    r in states[k].replicas ==>
      var x := states[k].replicas[r];
      && (forall n :: 1 <= n <= x.tick ==> Attempted(states, events, k, r, n))
      && (EndsTicked(x.phase) ==> Attempted(states, events, k, r, x.tick + 1))
  }

  predicate EndsTicked(p: Phase) { (p.Unwinding? || p.Closing?) && p.res.Ticked? }

  /** A number is counted, or its work ended, in this step or before it. */
  lemma TickedStep(s: System, e: Event, r: ReplicaId)
    requires Enabled(s, e) && r in Next(s, e).replicas
    ensures var y := Next(s, e).replicas[r]; r in s.replicas && var x := s.replicas[r];
      && (y.tick == x.tick || (y.tick == x.tick + 1 && EndsTicked(x.phase) && !EndsTicked(y.phase)))
      && (EndsTicked(y.phase) && y.tick == x.tick && !EndsTicked(x.phase) ==>
            e == WorkEnds(r) && WorkingAt(s, r, x.tick + 1) && x.phase.pc == |s.plan(x.tick + 1)|)
  {
    hide CheckedOut;
  }

  lemma {:induction false} AttemptsAreCounted(states: seq<System>, events: seq<Event>, k: nat, r: ReplicaId)
    requires IsRun(states, events) && Init(states[0]) && k <= |events|
    ensures CountedAttempts(states, events, k, r)
    ensures states[k].plan == states[0].plan
  {
    hide Enabled, Next, Under;
    if k > 0 {
      AttemptsAreCounted(states, events, k - 1, r);
      SamePlan(states[k - 1], events[k - 1]);
      if r in states[k].replicas {
        TickedStep(states[k - 1], events[k - 1], r);
        WorkingSince(states, events, k - 1, r);
        var x, y := states[k - 1].replicas[r], states[k].replicas[r];
        forall n | Attempted(states, events, k - 1, r, n)
          ensures Attempted(states, events, k, r, n)
        {
        }
        if EndsTicked(y.phase) && !EndsTicked(x.phase) {
          var n, pc, last := x.tick + 1, x.phase.pc, k - 1;
          assert Started(states, events, r, n, pc, last);
          var i :| 0 <= i < last && Under(states, events, r, n, pc, i, last);
          assert Attempt(states, events, r, n, i, last);
        }
      }
    }
  }

  lemma SamePlan(s: System, e: Event)
    requires Enabled(s, e)
    ensures Next(s, e).plan == s.plan
  {
  }

  /**
   * A counter moves only after attempts that ran to their end, each within one taking of the lock: for
   * every number up to the counter there is a single attempt at that number, which took the lock, stayed
   * inside the work, passed every position of the plan in it, and ended. Unless a worker's backend is lost
   * the replica owns the lock from the taking to the end.
   */
  lemma EveryTickIsOneAttempt(states: seq<System>, events: seq<Event>, k: nat, r: ReplicaId, n: nat) returns (i: nat, j: nat)
    requires IsRun(states, events) && Init(states[0]) && k <= |events|
    requires r in states[k].replicas && 1 <= n <= states[k].replicas[r].tick
    ensures i < j < k && Attempt(states, events, r, n, i, j)
    ensures NoLostWorker(states, events) ==> forall m :: i < m <= j ==> OwnsLock(states[m], r)
  {
    hide Enabled, Next, Under, Init, EndsTicked, WorkingAt;
    AttemptsAreCounted(states, events, k, r);
    assert Attempted(states, events, k, r, n);
    i, j :| 0 <= i < j < k && Attempt(states, events, r, n, i, j);
    if NoLostWorker(states, events) {
      forall m | i < m <= j
        ensures OwnsLock(states[m], r)
      {
        InitIsLocked(states[0]);
        LockAlways(states, events, m);
        WorkingInside(states, events, r, n, i, j, m);
        InsideOwns(states[m], r, n);
      }
    }
  }

  lemma InitIsLocked(s: System)
    requires Init(s)
    ensures LockInv(s)
  {
  }

  lemma InsideOwns(s: System, r: ReplicaId, n: nat)
    requires LockInv(s) && WorkingAt(s, r, n)
    ensures OwnsLock(s, r)
  {
  }

  lemma WorkingInside(states: seq<System>, events: seq<Event>, r: ReplicaId, n: nat, i: nat, j: nat, m: nat)
    requires |states| == |events| + 1 && Attempt(states, events, r, n, i, j) && i < m <= j
    ensures WorkingAt(states[m], r, n)
  {
  }

  // ----- counting -----

  /** The replica of the event. */
  predicate By(e: Event, r: ReplicaId) { !e.Lose? && e.r == r }

  /** The release of `r`, failed or not, unless it is cancelled. */
  predicate GivesBack(e: Event, r: ReplicaId) {
    e == Release(r) || (e.ReleaseFails? && e.r == r && !e.cancelled)
  }

  /** At event `j` the work of `r` ended, and since then `r` has done no more than release. */
  ghost predicate EndedAt(events: seq<Event>, k: nat, r: ReplicaId, j: nat)
    requires k <= |events|
  {
    j < k && events[j] == WorkEnds(r) && forall m :: j < m < k && By(events[m], r) ==> GivesBack(events[m], r)
  }

  ghost predicate Ended(events: seq<Event>, k: nat, r: ReplicaId)
    requires k <= |events|
  {
    exists j :: 0 <= j < k && EndedAt(events, k, r, j)
  }

  /** The lock session of `r` is closed normally after work that ended and a release. */
  ghost predicate Completes(events: seq<Event>, i: nat, r: ReplicaId)
    requires i < |events|
  {
    events[i] == Close(r) && Ended(events, i, r)
  }

  /** The number of such closings among the first `k` events. */
  ghost function Completed(events: seq<Event>, k: nat, r: ReplicaId): nat
    requires k <= |events|
  {
    if k == 0 then 0 else Completed(events, k - 1, r) + (if Completes(events, k - 1, r) then 1 else 0)
  }

  lemma EndedStep(events: seq<Event>, k: nat, r: ReplicaId)
    requires k < |events|
    ensures Ended(events, k + 1, r) <==> events[k] == WorkEnds(r) || (Ended(events, k, r) && (By(events[k], r) ==> GivesBack(events[k], r)))
  {
    if Ended(events, k, r) && (By(events[k], r) ==> GivesBack(events[k], r)) {
      var j :| 0 <= j < k && EndedAt(events, k, r, j);
      assert EndedAt(events, k + 1, r, j);
    }
    if events[k] == WorkEnds(r) {
      assert EndedAt(events, k + 1, r, k);
    }
    if Ended(events, k + 1, r) && events[k] != WorkEnds(r) {
      var j :| 0 <= j < k + 1 && EndedAt(events, k + 1, r, j);
      assert EndedAt(events, k, r, j);
    }
  }

  lemma EndsTickedStep(s: System, e: Event, r: ReplicaId)
    requires Enabled(s, e) && r in s.replicas
    ensures r in Next(s, e).replicas
    ensures var x, y := s.replicas[r], Next(s, e).replicas[r];
      && (EndsTicked(y.phase) <==> e == WorkEnds(r) || (EndsTicked(x.phase) && (By(e, r) ==> GivesBack(e, r))))
      && y.tick == x.tick + (if e == Close(r) && EndsTicked(x.phase) then 1 else 0)
  {
    hide CheckedOut;
  }

  /**
   * The counter of a replica is exactly the number of lock sessions it closed normally after work that ended
   * and nothing but a release since. Timed-out, failed, cancelled and skipped attempts do not move it, so the
   * next attempt is made for the same number. The run may start anywhere but between such work and its close.
   */
  lemma {:induction false} CounterCountsCompletedAttempts(states: seq<System>, events: seq<Event>, k: nat, r: ReplicaId)
    requires IsRun(states, events) && k <= |events|
    requires r in states[0].replicas && !EndsTicked(states[0].replicas[r].phase)
    ensures r in states[k].replicas && (EndsTicked(states[k].replicas[r].phase) <==> Ended(events, k, r))
    ensures states[k].replicas[r].tick == states[0].replicas[r].tick + Completed(events, k, r)
  {
    if k > 0 {
      CounterCountsCompletedAttempts(states, events, k - 1, r);
      EndsTickedStep(states[k - 1], events[k - 1], r);
      hide Enabled, Next, EndedAt, GivesBack, EndsTicked;
      EndedStep(events, k - 1, r);
    }
  }
}
