/** All interleavings of one master and any number of workers over a check queue
    (src/checkqueue.h:72-138, 173-190).

    A step is one critical section, or the thread-local work between two of them. */
module CheckQueueRuns {
  import opened CheckQueues
  import opened Options

  /** Where a thread is.  Thread 0 is the master, the others are workers in Loop(false).

      Outside: not in Loop.  Notifying: in Add, between unlocking the mutex and notifying.
      Entering: in Loop, before its first critical section.  Waiting: blocked on its condition
      variable, possibly notified.  Working: holding a batch.  Finished: done with the batch,
      before the critical section that accounts for it.  Locking: in the critical section, about
      to look at the queue. */
  datatype Thread =
    | Outside
    | Notifying(all: bool)
    | Entering
    | Waiting(local: Option<int>, notified: bool)
    | Working(batch: seq<Check>, doWork: bool, local: Option<int>)
    | Finished(batch: seq<Check>, local: Option<int>)
    | Locking(local: Option<int>)

  /** A completed session: the checks added for it, and what Complete returned. */
  datatype Session = Session(checks: multiset<Check>, verdict: Option<int>)

  /** `added` are the checks of the current session, `retired` those accounted for by clean-ups. */
  datatype State = State(shared: Shared, threads: seq<Thread>, added: multiset<Check>, retired: multiset<Check>, history: seq<Session>)

  datatype Step =
    | Add(checks: seq<Check>)
    | Notify(worker: nat)
    | Complete
    | Work(thread: nat)
    | Section(thread: nat)

  ghost predicate Init(s: State, workers: nat) {
    && s.shared == Shared([], 0, 0, None, 0) && |s.threads| == workers + 1
    && s.threads[0] == Outside && (forall w :: 1 <= w < |s.threads| ==> s.threads[w] == Entering)
    && s.added == multiset{} && s.retired == multiset{} && s.history == []
  }

  // ---------- steps ----------

  /** Notify all workers, or one of those that wait, if any does. */
  ghost function Notified(ts: seq<Thread>, all: bool, worker: nat): (r: seq<Thread>)
    ensures |r| == |ts|
  {
    seq(|ts|, i requires 0 <= i < |ts| =>
      if i > 0 && (all || i == worker) && ts[i].Waiting? then ts[i].(notified := true) else ts[i])
  }

  ghost predicate Unnotified(t: Thread) { t.Waiting? && !t.notified }

  /** notify_one may pick any thread that waits; it has no effect only if none does. */
  ghost predicate MayNotify(ts: seq<Thread>, all: bool, worker: nat) {
    all || (0 < worker < |ts| && Unnotified(ts[worker])) || (forall i :: 0 < i < |ts| ==> !Unnotified(ts[i]))
  }

  /** First half of a critical section: thread t gets the mutex and, after a batch, cleans up. */
  ghost function Lock(s: State, t: nat): (r: State)
    requires t < |s.threads|
    ensures |r.threads| == |s.threads|
  {
    match s.threads[t]
    case Entering => s.(shared := s.shared.(nTotal := s.shared.nTotal + 1), threads := s.threads[t := Locking(None)])
    case Waiting(local, _) => s.(shared := s.shared.(nIdle := s.shared.nIdle - 1), threads := s.threads[t := Locking(local)])
    case Finished(batch, local) =>
      var shared := CleanedUp(s.shared, |batch|, local);
      var own := s.threads[t := Locking(LocalAfter(s.shared, local))];
      s.(shared := shared, retired := s.retired + multiset(batch),
         threads := if t != 0 && shared.nTodo == 0 && own[0].Waiting? then own[0 := own[0].(notified := true)] else own)
    case _ => s
  }

  /** Second half: thread t looks at the queue, and releases the mutex. */
  ghost function Look(s: State, t: nat, d: Decision): State
    requires t < |s.threads| && s.threads[t].Locking? && (d.Take? ==> |d.batch| <= |s.shared.queue|)
  {
    var shared, local := AfterDecision(s.shared, d), s.threads[t].local;
    match d
    case Return(verdict) =>
      State(shared, s.threads[t := Outside], multiset{}, multiset{}, s.history + [Session(s.added, verdict)])
    case Wait => s.(shared := shared, threads := s.threads[t := Waiting(local, false)])
    case Take(batch, doWork) => s.(shared := shared, threads := s.threads[t := Working(batch, doWork, local)])
  }

  ghost predicate InLock(t: Thread) { t.Entering? || t.Waiting? || t.Finished? }

  ghost predicate Next(s: State, step: Step, s': State, batchSize: nat) {
    && s.threads != []
    && match step
       case Add(checks) =>
         && s.threads[0] == Outside
         && s' == s.(shared := s.shared.(queue := s.shared.queue + checks, nTodo := s.shared.nTodo + |checks|),
                     added := s.added + multiset(checks),
                     threads := if checks == [] then s.threads else s.threads[0 := Notifying(|checks| > 1)])
       case Notify(worker) =>
         && s.threads[0].Notifying? && MayNotify(s.threads, s.threads[0].all, worker)
         && s' == s.(threads := Notified(s.threads, s.threads[0].all, worker)[0 := Outside])
       case Complete =>
         s.threads[0] == Outside && s' == s.(threads := s.threads[0 := Entering])
       case Work(t) =>
         && t < |s.threads| && s.threads[t].Working?
         && var w := s.threads[t];
            s' == s.(threads := s.threads[t := Finished(w.batch, if w.doWork then BatchResult(w.batch) else w.local)])
       case Section(t) =>
         && t < |s.threads| && InLock(s.threads[t])
         && var l := Lock(s, t);
            l.shared.nTotal >= 0 && l.shared.nIdle >= 0 && s' == Look(l, t, Decided(l.shared, t == 0, batchSize))
  }

  // ---------- sums over the threads ----------

  ghost function Batch(t: Thread): seq<Check> { if t.Working? || t.Finished? then t.batch else [] }

  ghost function InFlight(ts: seq<Thread>): multiset<Check> {
    if ts == [] then multiset{} else multiset(Batch(ts[0])) + InFlight(ts[1..])
  }

  lemma {:induction false} InFlightUpdate(ts: seq<Thread>, i: nat, t: Thread)
    requires i < |ts|
    ensures InFlight(ts[i := t]) + multiset(Batch(ts[i])) == InFlight(ts) + multiset(Batch(t))
    ensures Batch(t) == Batch(ts[i]) ==> InFlight(ts[i := t]) == InFlight(ts)
  {
    var us, b, c := ts[i := t], multiset(Batch(ts[i])), multiset(Batch(t));
    if i == 0 {
      assert us[1..] == ts[1..];
      Shuffle(c, InFlight(ts[1..]), b);
      Shuffle(b, InFlight(ts[1..]), c);
    } else {
      assert us[1..] == ts[1..][i - 1 := t] && us[0] == ts[0];
      InFlightUpdate(ts[1..], i - 1, t);
      Shuffle(multiset(Batch(ts[0])), InFlight(us[1..]), b);
      Shuffle(multiset(Batch(ts[0])), InFlight(ts[1..]), c);
    }
  }

  lemma {:induction false} Shuffle(a: multiset<Check>, b: multiset<Check>, c: multiset<Check>)
    ensures (a + b) + c == a + (b + c) == (c + b) + a
  {
  }

  lemma {:induction false} InFlightSame(ts: seq<Thread>, us: seq<Thread>)
    requires |us| == |ts| && forall i :: 0 <= i < |ts| ==> Batch(us[i]) == Batch(ts[i])
    ensures InFlight(us) == InFlight(ts)
  {
    if ts != [] {
      InFlightSame(ts[1..], us[1..]);
    }
  }

  lemma {:induction false} InFlightHolds(ts: seq<Thread>, i: nat)
    requires i < |ts|
    ensures multiset(Batch(ts[i])) <= InFlight(ts)
  {
    if i > 0 {
      assert ts[1..][i - 1] == ts[i];
      InFlightHolds(ts[1..], i - 1);
    }
  }

  lemma {:induction false} SomeoneHolds(ts: seq<Thread>) returns (i: nat)
    requires InFlight(ts) != multiset{}
    ensures i < |ts| && Batch(ts[i]) != []
  {
    if Batch(ts[0]) != [] {
      i := 0;
    } else {
      var k := SomeoneHolds(ts[1..]);
      i := k + 1;
    }
  }

  ghost function Idle(t: Thread): nat { if t.Waiting? then 1 else 0 }

  ghost function Joined(t: Thread): nat { if t.Waiting? || t.Working? || t.Finished? || t.Locking? then 1 else 0 }

  /** The sum of a quantity over all threads. */
  ghost function Total(f: Thread -> nat, ts: seq<Thread>): nat {
    if ts == [] then 0 else f(ts[0]) + Total(f, ts[1..])
  }

  lemma {:induction false} TotalUpdate(f: Thread -> nat, ts: seq<Thread>, i: nat, t: Thread)
    requires i < |ts|
    ensures Total(f, ts[i := t]) + f(ts[i]) == Total(f, ts) + f(t)
  {
    var us := ts[i := t];
    if i == 0 {
      assert us[1..] == ts[1..];
    } else {
      assert us[1..] == ts[1..][i - 1 := t];
      TotalUpdate(f, ts[1..], i - 1, t);
    }
  }

  lemma {:induction false} TotalSame(f: Thread -> nat, ts: seq<Thread>, us: seq<Thread>)
    requires |us| == |ts| && forall i :: 0 <= i < |ts| ==> f(us[i]) == f(ts[i])
    ensures Total(f, us) == Total(f, ts)
  {
    if ts != [] { TotalSame(f, ts[1..], us[1..]); }
  }

  // ---------- the invariant ----------

  ghost predicate AllPass(m: multiset<Check>) { forall c :: c in m ==> c.result.None? }

  /** r is what Complete promises for these checks: None if all pass, else a failure of one. */
  ghost predicate Correct(m: multiset<Check>, r: Option<int>) {
    (r.None? <==> AllPass(m)) && (r.Some? ==> exists c :: c in m && c.result == r)
  }

  /** The counters are exact. */
  ghost predicate Counted(s: State) {
    && s.shared.nTodo == |s.shared.queue| + |InFlight(s.threads)|
    && s.shared.nIdle == Total(Idle, s.threads) && s.shared.nTotal == Total(Joined, s.threads)
  }

  /** No check is lost or duplicated, and the temporary result is right for the retired ones. */
  ghost predicate Ledger(s: State) {
    && s.added == multiset(s.shared.queue) + InFlight(s.threads) + s.retired
    && Correct(s.retired, s.shared.result)
  }

  /** A batch is never empty; one that is skipped, or whose outcome is not right, is so only
      because a failure is already recorded. */
  ghost predicate ThreadOk(t: Thread, result: Option<int>) {
    && (t.Working? ==> t.batch != [] && (t.doWork || result.Some?))
    && (t.Finished? ==> t.batch != [] && (result.Some? || Correct(multiset(t.batch), t.local)))
  }

  ghost predicate ThreadsOk(ts: seq<Thread>, result: Option<int>) {
    && (forall i :: 0 <= i < |ts| ==> ThreadOk(ts[i], result))
    && (forall i :: 0 < i < |ts| ==> !ts[i].Outside? && !ts[i].Notifying?)
  }

  /** No wake-up is lost: a blocked master has unfinished checks out with workers, and a
      non-empty queue has a worker (if there are any) that will look at it. */
  ghost predicate Woken(s: State) {
    && s.threads != []
    && (Unnotified(s.threads[0]) ==> s.shared.queue == [] && s.shared.nTodo > 0)
    && (s.shared.queue != [] && |s.threads| > 1 && !s.threads[0].Notifying? ==> exists w :: 0 < w < |s.threads| && !Unnotified(s.threads[w]))
  }

  ghost predicate Judged(s: State) {
    forall k :: 0 <= k < |s.history| ==> Correct(s.history[k].checks, s.history[k].verdict)
  }

  ghost predicate Inv(s: State) { Counted(s) && Ledger(s) && ThreadsOk(s.threads, s.shared.result) && Woken(s) && Judged(s) }

  lemma {:induction false} InitKeeps(s: State, workers: nat)
    requires Init(s, workers)
    ensures Inv(s)
  {
    NoBatches(s.threads);
  }

  lemma {:induction false} NoBatches(ts: seq<Thread>)
    requires forall i :: 0 <= i < |ts| ==> ts[i] == Outside || ts[i] == Entering
    ensures InFlight(ts) == multiset{} && Total(Idle, ts) == 0 && Total(Joined, ts) == 0
  {
    if ts != [] { NoBatches(ts[1..]); }
  }

  // ---------- every step keeps it ----------

  lemma {:induction false} AddKeeps(s: State, checks: seq<Check>, s': State, batchSize: nat)
    requires Inv(s) && Next(s, Add(checks), s', batchSize)
    ensures Inv(s')
  {
    hide Total, InFlight, Correct;
    if checks != [] {
      var t := Notifying(|checks| > 1);
      ThreadSums(s.threads, 0, t);
      ReplaceThread(s.threads, 0, t, s.shared.result);
    } else {
      assert s.shared.queue + checks == s.shared.queue;
    }
  }

  lemma {:induction false} CompleteKeeps(s: State, s': State, batchSize: nat)
    requires Inv(s) && Next(s, Complete, s', batchSize)
    ensures Inv(s')
  {
    ThreadSums(s.threads, 0, Entering);
    assert forall i :: 0 < i < |s.threads| ==> s'.threads[i] == s.threads[i];
  }

  lemma {:induction false} NotifyKeeps(s: State, worker: nat, s': State, batchSize: nat)
    requires Inv(s) && Next(s, Notify(worker), s', batchSize)
    ensures Inv(s')
  {
    var ts, us := s.threads, s'.threads;
    NotifySums(ts, ts[0].all, worker, us);
    hide Total, InFlight, Correct, AllPass;
  }

  lemma {:induction false} NotifySums(ts: seq<Thread>, all: bool, worker: nat, us: seq<Thread>)
    requires ts != [] && ts[0].Notifying? && MayNotify(ts, all, worker) && us == Notified(ts, all, worker)[0 := Outside]
    ensures InFlight(us) == InFlight(ts) && Total(Idle, us) == Total(Idle, ts) && Total(Joined, us) == Total(Joined, ts)
    ensures |us| == |ts| && us[0] == Outside
    ensures forall i, result :: 0 < i < |ts| && ThreadOk(ts[i], result) ==> ThreadOk(us[i], result)
    ensures forall i :: 0 < i < |ts| && !ts[i].Outside? && !ts[i].Notifying? ==> !us[i].Outside? && !us[i].Notifying?
    ensures |ts| > 1 ==> exists w :: 0 < w < |us| && !Unnotified(us[w])
  {
    InFlightSame(ts, us);
    TotalSame(Idle, ts, us);
    TotalSame(Joined, ts, us);
    hide Total, InFlight, Correct;
    if |ts| > 1 {
      var w := if 0 < worker < |ts| then worker else 1;
      assert !Unnotified(us[w]);
    }
  }

  /** Replacing one thread's state: what the sums become. */
  lemma {:induction false} ThreadSums(ts: seq<Thread>, i: nat, t: Thread)
    requires i < |ts|
    ensures var us := ts[i := t];
            && InFlight(us) + multiset(Batch(ts[i])) == InFlight(ts) + multiset(Batch(t))
            && (Batch(t) == Batch(ts[i]) ==> InFlight(us) == InFlight(ts))
            && |InFlight(us)| + |Batch(ts[i])| == |InFlight(ts)| + |Batch(t)|
            && Total(Idle, us) + Idle(ts[i]) == Total(Idle, ts) + Idle(t)
            && Total(Joined, us) + Joined(ts[i]) == Total(Joined, ts) + Joined(t)
  {
    InFlightUpdate(ts, i, t);
    TotalUpdate(Idle, ts, i, t);
    TotalUpdate(Joined, ts, i, t);
    var us, b, c := ts[i := t], multiset(Batch(ts[i])), multiset(Batch(t));
    assert |InFlight(us) + b| == |InFlight(us)| + |b| && |InFlight(ts) + c| == |InFlight(ts)| + |c|;
  }

  /** Replacing one thread's state, without touching the recorded result. */
  lemma {:induction false} ReplaceThread(ts: seq<Thread>, i: nat, t: Thread, result: Option<int>)
    requires i < |ts| && ThreadsOk(ts, result) && ThreadOk(t, result) && (i == 0 || (!t.Outside? && !t.Notifying?))
    ensures ThreadsOk(ts[i := t], result)
  {
    hide ThreadOk;
  }

  lemma {:induction false} WorkKeeps(s: State, t: nat, s': State, batchSize: nat)
    requires Inv(s) && Next(s, Work(t), s', batchSize)
    ensures Inv(s')
  {
    hide Total, InFlight, AllPass, BatchResult, Correct;
    var w, result := s.threads[t], s.shared.result;
    var f := Finished(w.batch, if w.doWork then BatchResult(w.batch) else w.local);
    ThreadSums(s.threads, t, f);
    BatchResultCorrect(w.batch);
    assert ThreadOk(w, result) && ThreadOk(f, result);
    ReplaceThread(s.threads, t, f, result);
    hide ThreadsOk, ThreadOk;
    WokenStill(s, s', t, f);
  }

  /** A thread that does not block keeps the wake-ups in order. */
  lemma {:induction false} WokenStill(s: State, s': State, t: nat, thread: Thread)
    requires Woken(s) && t < |s.threads| && s'.threads == s.threads[t := thread] && !Unnotified(thread)
    requires t == 0 ==> !s.threads[0].Notifying?
    requires s'.shared.queue == s.shared.queue && s'.shared.nTodo == s.shared.nTodo
    ensures Woken(s')
  {
    if s.shared.queue != [] && |s.threads| > 1 && !s.threads[0].Notifying? {
      var w :| 0 < w < |s.threads| && !Unnotified(s.threads[w]);
      assert !Unnotified(s'.threads[w]);
    }
  }

  lemma {:induction false} BatchResultCorrect(batch: seq<Check>)
    ensures Correct(multiset(batch), BatchResult(batch))
  {
    var r := BatchResult(batch);
    forall c | c in multiset(batch) && r.None? ensures c.result.None? {
      var i :| 0 <= i < |batch| && batch[i] == c;
    }
    if r.Some? {
      var i :| 0 <= i < |batch| && batch[i].result == r;
      assert batch[i] in multiset(batch);
    }
    if AllPass(multiset(batch)) {
      forall i | 0 <= i < |batch| ensures batch[i].result.None? { assert batch[i] in multiset(batch); }
    }
  }

  lemma {:induction false} LockKeeps(s: State, t: nat)
    requires Inv(s) && t < |s.threads| && InLock(s.threads[t])
    ensures Inv(Lock(s, t)) && Lock(s, t).threads[t].Locking?
  {
    if s.threads[t].Finished? {
      CleanUpKeeps(s, t);
    } else {
      hide Total, InFlight, Correct, AllPass, ThreadsOk;
      var thread := Lock(s, t).threads[t];
      ThreadSums(s.threads, t, thread);
      ReplaceThread(s.threads, t, thread, s.shared.result);
      WokenStill(s, Lock(s, t), t, thread);
    }
  }

  lemma {:induction false} RecordedStays(ts: seq<Thread>, r: Option<int>, r': Option<int>)
    requires ThreadsOk(ts, r) && (r' == r || r'.Some?)
    ensures ThreadsOk(ts, r')
  {
    hide Correct;
  }

  /** Accounting for a batch keeps the temporary result right. */
  lemma {:induction false} RetireBatch(retired: multiset<Check>, result: Option<int>, batch: multiset<Check>, local: Option<int>)
    requires Correct(retired, result) && (result.Some? || Correct(batch, local))
    ensures Correct(retired + batch, if local.Some? && result.None? then local else result)
  {
    if result.Some? {
      var c :| c in retired && c.result == result;
      assert c in retired + batch;
    } else if local.Some? {
      var c :| c in batch && c.result == local;
      assert c in retired + batch;
    }
  }

  /** The state after a clean-up, before the master is notified. */
  ghost function Retired(s: State, t: nat): State
    requires t < |s.threads| && s.threads[t].Finished?
  {
    var f := s.threads[t];
    s.(shared := CleanedUp(s.shared, |f.batch|, f.local), retired := s.retired + multiset(f.batch),
       threads := s.threads[t := Locking(LocalAfter(s.shared, f.local))])
  }

  lemma {:induction false} RetiredCounted(s: State, t: nat)
    requires Counted(s) && t < |s.threads| && s.threads[t].Finished?
    ensures Counted(Retired(s, t)) && Retired(s, t).shared.nTodo >= 0
  {
    ThreadSums(s.threads, t, Retired(s, t).threads[t]);
    hide Total, InFlight;
  }

  lemma {:induction false} RetiredLedger(s: State, t: nat)
    requires Ledger(s) && t < |s.threads| && s.threads[t].Finished? && ThreadOk(s.threads[t], s.shared.result)
    ensures Ledger(Retired(s, t))
  {
    var f, own := s.threads[t], Retired(s, t).threads;
    RetireBatch(s.retired, s.shared.result, multiset(f.batch), f.local);
    InFlightUpdate(s.threads, t, own[t]);
    hide InFlight, Correct;
    CleanUpMoves(s, t, own);
  }

  lemma {:induction false} RetiredThreads(s: State, t: nat)
    requires ThreadsOk(s.threads, s.shared.result) && t < |s.threads| && s.threads[t].Finished?
    ensures ThreadsOk(Retired(s, t).threads, Retired(s, t).shared.result)
  {
    var m := Retired(s, t);
    ReplaceThread(s.threads, t, m.threads[t], s.shared.result);
    hide ThreadsOk;
    RecordedStays(m.threads, s.shared.result, m.shared.result);
  }

  lemma {:induction false} CleanUpKeeps(s: State, t: nat)
    requires Inv(s) && t < |s.threads| && s.threads[t].Finished?
    ensures Inv(Lock(s, t)) && Lock(s, t).threads[t].Locking?
  {
    assert ThreadOk(s.threads[t], s.shared.result);
    hide Total, InFlight, Correct, AllPass, ThreadsOk, ThreadOk;
    RetiredCounted(s, t);
    RetiredLedger(s, t);
    RetiredThreads(s, t);
    var m := Retired(s, t);
    CleanUpWakes(s, m, t);
    NotifyMasterSums(m);
    assert Lock(s, t) == (if t != 0 && m.shared.nTodo == 0 && m.threads[0].Waiting? then MasterNotified(m) else m);
  }

  lemma {:induction false} CleanUpMoves(s: State, t: nat, own: seq<Thread>)
    requires Ledger(s) && t < |s.threads| && s.threads[t].Finished? && InFlight(own) + multiset(s.threads[t].batch) == InFlight(s.threads)
    ensures s.added == multiset(s.shared.queue) + InFlight(own) + (s.retired + multiset(s.threads[t].batch))
  {
    hide InFlight, Correct;
  }

  ghost function MasterNotified(m: State): State
    requires m.threads != [] && m.threads[0].Waiting?
  {
    m.(threads := m.threads[0 := m.threads[0].(notified := true)])
  }

  lemma {:induction false} CleanUpWakes(s: State, m: State, t: nat)
    requires Woken(s) && t < |s.threads| && s.threads[t].Finished? && m.shared.queue == s.shared.queue && m.shared.nTodo >= 0
    requires |m.threads| == |s.threads| && m.threads[t].Locking? && (forall i :: 0 <= i < |s.threads| && i != t ==> m.threads[i] == s.threads[i])
    ensures Woken(if t != 0 && m.shared.nTodo == 0 && m.threads[0].Waiting? then MasterNotified(m) else m)
  {
    var r := if t != 0 && m.shared.nTodo == 0 && m.threads[0].Waiting? then MasterNotified(m) else m;
    assert t != 0 ==> m.threads[0] == s.threads[0];
    assert Unnotified(r.threads[0]) ==> r.shared.queue == [] && r.shared.nTodo > 0;
    if s.shared.queue != [] && |s.threads| > 1 && !r.threads[0].Notifying? {
      var w :| 0 < w < |s.threads| && !Unnotified(s.threads[w]);
      assert r.threads[w] == m.threads[w] && !Unnotified(m.threads[w]);
    }
  }

  lemma {:induction false} NotifyMasterSums(m: State)
    requires m.threads != [] && ThreadsOk(m.threads, m.shared.result) && Counted(m) && Ledger(m)
    ensures m.threads[0].Waiting? ==>
              var r := MasterNotified(m); Counted(r) && Ledger(r) && ThreadsOk(r.threads, r.shared.result)
  {
    if m.threads[0].Waiting? {
      var thread := m.threads[0].(notified := true);
      ThreadSums(m.threads, 0, thread);
      ReplaceThread(m.threads, 0, thread, m.shared.result);
    }
  }

  // ---------- looking at the queue ----------

  lemma {:induction false} LookKeeps(s: State, t: nat, batchSize: nat)
    requires Inv(s) && t < |s.threads| && s.threads[t].Locking?
    ensures s.shared.nTotal >= 0 && s.shared.nIdle >= 0
    ensures Inv(Look(s, t, Decided(s.shared, t == 0, batchSize)))
  {
    var d := Decided(s.shared, t == 0, batchSize);
    match d {
      case Return(verdict) => ReturnKeeps(s, t, verdict);
      case Wait => WaitKeeps(s, t);
      case Take(batch, doWork) => TakeKeeps(s, t, batch);
    }
  }

  lemma {:induction false} NothingOut(ts: seq<Thread>, result: Option<int>)
    requires ThreadsOk(ts, result) && InFlight(ts) == multiset{}
    ensures ThreadsOk(ts, None)
  {
    forall i | 0 <= i < |ts| ensures ThreadOk(ts[i], None) {
      InFlightHolds(ts, i);
      assert ThreadOk(ts[i], result);
    }
  }

  lemma {:induction false} ReturnKeeps(s: State, t: nat, verdict: Option<int>)
    requires Inv(s) && t == 0 < |s.threads| && s.threads[t].Locking?
    requires s.shared.queue == [] && s.shared.nTodo == 0 && verdict == s.shared.result
    ensures Inv(Look(s, t, Return(verdict))) && Correct(s.added, verdict)
  {
    assert InFlight(s.threads) == multiset{};
    assert s.added == s.retired;
    ThreadSums(s.threads, t, Outside);
    NothingOut(s.threads, s.shared.result);
    ReplaceThread(s.threads, t, Outside, None);
    hide Total, InFlight, ThreadsOk;
    var r := Look(s, t, Return(verdict));
    assert Judged(r) by { hide Correct; }
  }

  lemma {:induction false} WaitKeeps(s: State, t: nat)
    requires Inv(s) && t < |s.threads| && s.threads[t].Locking? && s.shared.queue == [] && (t == 0 ==> s.shared.nTodo != 0)
    ensures Inv(Look(s, t, Wait))
  {
    var thread := Waiting(s.threads[t].local, false);
    ThreadSums(s.threads, t, thread);
    ReplaceThread(s.threads, t, thread, s.shared.result);
    hide Total, InFlight, ThreadsOk, Correct;
  }

  lemma {:induction false} MoveBatch(q: multiset<Check>, b: multiset<Check>, f: multiset<Check>, r: multiset<Check>)
    ensures (q + b) + f + r == q + (f + b) + r
  {
  }

  lemma {:induction false} TakeLedger(s: State, r: State, t: nat, batch: seq<Check>)
    requires Counted(s) && Ledger(s) && t < |s.threads| && s.threads[t].Locking?
    requires s.shared.queue == r.shared.queue + batch && r.shared == s.shared.(queue := r.shared.queue)
    requires r.threads == s.threads[t := Working(batch, s.shared.result.None?, s.threads[t].local)] && r.added == s.added && r.retired == s.retired
    ensures Counted(r) && Ledger(r)
  {
    hide Total, InFlight, Correct;
    ThreadSums(s.threads, t, r.threads[t]);
    assert InFlight(r.threads) == InFlight(s.threads) + multiset(batch);
    MoveBatch(multiset(r.shared.queue), multiset(batch), InFlight(s.threads), s.retired);
    assert multiset(s.shared.queue) == multiset(r.shared.queue) + multiset(batch);
  }

  lemma {:induction false} TakeWoken(s: State, r: State, t: nat)
    requires Woken(s) && t < |s.threads| && s.threads[t].Locking? && s.shared.queue != []
    requires |r.threads| == |s.threads| && r.threads[t].Working? && (forall i :: 0 <= i < |s.threads| && i != t ==> r.threads[i] == s.threads[i])
    ensures Woken(r)
  {
    if |s.threads| > 1 && !r.threads[0].Notifying? {
      var w :| 0 < w < |s.threads| && !Unnotified(s.threads[w]);
      assert !Unnotified(r.threads[w]);
    }
  }

  lemma {:induction false} TakeKeeps(s: State, t: nat, batch: seq<Check>)
    requires Inv(s) && t < |s.threads| && s.threads[t].Locking? && batch != []
    requires |batch| <= |s.shared.queue| && batch == s.shared.queue[|s.shared.queue| - |batch|..]
    ensures Inv(Look(s, t, Take(batch, s.shared.result.None?)))
  {
    hide Counted, Ledger, ThreadsOk, Woken, Judged, Correct;
    var q, n := s.shared.queue, |s.shared.queue| - |batch|;
    var r := Look(s, t, Take(batch, s.shared.result.None?));
    assert q == q[..n] + batch;
    TakeLedger(s, r, t, batch);
    ReplaceThread(s.threads, t, r.threads[t], s.shared.result);
    TakeWoken(s, r, t);
    SameHistory(s, r);
  }

  lemma {:induction false} SameHistory(s: State, r: State)
    requires Judged(s) && r.history == s.history
    ensures Judged(r)
  {
    hide Correct;
  }

  // ---------- every run ----------

  lemma {:induction false} StepKeeps(s: State, step: Step, s': State, batchSize: nat)
    requires Inv(s) && Next(s, step, s', batchSize)
    ensures Inv(s')
  {
    match step {
      case Add(checks) => AddKeeps(s, checks, s', batchSize);
      case Notify(worker) => NotifyKeeps(s, worker, s', batchSize);
      case Complete => CompleteKeeps(s, s', batchSize);
      case Work(t) => WorkKeeps(s, t, s', batchSize);
      case Section(t) =>
        hide Inv;
        LockKeeps(s, t);
        LookKeeps(Lock(s, t), t, batchSize);
    }
  }

  /** A run: any interleaving of the master's calls and the threads' steps. */
  ghost predicate Run(states: seq<State>, steps: seq<Step>, workers: nat, batchSize: nat) {
    && |states| == |steps| + 1 && Init(states[0], workers)
    && forall k :: 0 <= k < |steps| ==> Next(states[k], steps[k], states[k + 1], batchSize)
  }

  /** In every state of every run: the number of unfinished checks is exact, no check is lost,
      every Complete so far returned the right verdict for its own session, and no wake-up is
      lost. */
  lemma {:induction false} RunSafe(states: seq<State>, steps: seq<Step>, workers: nat, batchSize: nat, k: nat)
    requires Run(states, steps, workers, batchSize) && k < |states|
    ensures Inv(states[k])
  {
    hide Inv, Next;
    if k == 0 {
      InitKeeps(states[0], workers);
    } else {
      RunSafe(states, steps, workers, batchSize, k - 1);
      assert Next(states[k - 1], steps[k - 1], states[k], batchSize);
      StepKeeps(states[k - 1], steps[k - 1], states[k], batchSize);
    }
  }

  /** The step with which Complete returns adds its session to the history, with the checks added
      since the one before. */
  ghost predicate Returns(s: State, step: Step, s': State) {
    step == Section(0) && s.threads != [] && InLock(s.threads[0]) && s'.threads != [] && s'.threads[0] == Outside
  }

  lemma {:induction false} VerdictCorrect(s: State, step: Step, s': State, batchSize: nat)
    requires Inv(s) && Next(s, step, s', batchSize) && Returns(s, step, s')
    ensures var n := |s.history|;
            && |s'.history| == n + 1 && s'.history[n].checks == s.added && Correct(s.added, s'.history[n].verdict)
    ensures s'.added == multiset{} && s'.shared.result == None && s'.shared.nTodo == 0
  {
    var l := Lock(s, 0);
    LockKeeps(s, 0);
    hide Correct, Total, InFlight, ThreadsOk;
    var d := Decided(l.shared, true, batchSize);
    assert d.Return?;
    ReturnKeeps(l, 0, d.verdict);
  }

  // ---------- Complete always ends ----------

  ghost predicate InLoop(t: Thread) { t.Entering? || t.Waiting? || t.Working? || t.Finished? }

  /** A wake-up without notification that finds nothing to do. */
  ghost predicate Spurious(s: State, step: Step) {
    step.Section? && step.thread < |s.threads| && Unnotified(s.threads[step.thread]) && s.shared.queue == []
  }

  ghost function AfterWork(s: State, t: nat): State
    requires t < |s.threads| && s.threads[t].Working?
  {
    var w := s.threads[t];
    s.(threads := s.threads[t := Finished(w.batch, if w.doWork then BatchResult(w.batch) else w.local)])
  }

  ghost function AfterSection(s: State, t: nat, batchSize: nat): State
    requires Inv(s) && t < |s.threads| && InLock(s.threads[t])
  {
    LockKeeps(s, t);
    LookKeeps(Lock(s, t), t, batchSize);
    Look(Lock(s, t), t, Decided(Lock(s, t).shared, t == 0, batchSize))
  }

  /** Any thread in Loop can always make its next step. */
  lemma {:induction false} ThreadCanStep(s: State, t: nat, batchSize: nat)
    requires Inv(s) && t < |s.threads| && InLoop(s.threads[t])
    ensures s.threads[t].Working? ==> Next(s, Work(t), AfterWork(s, t), batchSize)
    ensures !s.threads[t].Working? ==> Next(s, Section(t), AfterSection(s, t, batchSize), batchSize)
  {
    hide Inv, BatchResult;
    if !s.threads[t].Working? {
      LockKeeps(s, t);
      LookKeeps(Lock(s, t), t, batchSize);
    }
  }

  /** While the master is in Complete, some thread can make a step that is not spurious: there is
      no deadlock, and a blocked master has a worker to wait for. */
  lemma {:induction false} SomeoneCanStep(s: State, batchSize: nat) returns (step: Step, s': State)
    requires Inv(s) && InLoop(s.threads[0])
    ensures Next(s, step, s', batchSize) && !Spurious(s, step)
  {
    var t := 0;
    if Unnotified(s.threads[0]) {
      t := SomeoneHolds(s.threads);
    }
    hide Inv, Next, InFlight;
    ThreadCanStep(s, t, batchSize);
    if s.threads[t].Working? {
      step, s' := Work(t), AfterWork(s, t);
    } else {
      step, s' := Section(t), AfterSection(s, t, batchSize);
    }
  }

  /** Work still ahead of a thread before it blocks or leaves. */
  ghost function Ahead(t: Thread): nat {
    match t
    case Outside => 0
    case Notifying(_) => 1
    case Entering => 2
    case Waiting(_, notified) => if notified then 2 else 0
    case Working(_, _, _) => 4
    case Finished(_, _) => 3
    case Locking(_) => 0
  }

  ghost function Remaining(s: State): nat { 5 * |s.shared.queue| + Total(Ahead, s.threads) }

  /** Getting the mutex costs what the thread had ahead, less the notification of the master. */
  lemma {:induction false} LockRemaining(s: State, t: nat)
    requires t < |s.threads| && InLock(s.threads[t])
    ensures var l := Lock(s, t);
            && l.shared.queue == s.shared.queue && l.threads[t] == Locking(l.threads[t].local)
            && Remaining(l) <= Remaining(s) && (!Unnotified(s.threads[t]) ==> Remaining(l) < Remaining(s))
  {
    var l := Lock(s, t);
    if s.threads[t].Finished? {
      var own := s.threads[t := Locking(LocalAfter(s.shared, s.threads[t].local))];
      TotalUpdate(Ahead, s.threads, t, own[t]);
      if l.threads != own { TotalUpdate(Ahead, own, 0, l.threads[0]); }
    } else {
      TotalUpdate(Ahead, s.threads, t, l.threads[t]);
    }
  }

  lemma {:induction false} LookRemaining(s: State, t: nat, batchSize: nat)
    requires t < |s.threads| && s.threads[t].Locking? && s.shared.nTotal >= 0 && s.shared.nIdle >= 0
    ensures var r := Look(s, t, Decided(s.shared, t == 0, batchSize));
            Remaining(r) <= Remaining(s) && (s.shared.queue != [] ==> Remaining(r) < Remaining(s))
  {
    var r := Look(s, t, Decided(s.shared, t == 0, batchSize));
    TotalUpdate(Ahead, s.threads, t, r.threads[t]);
    hide Total;
  }

  /** Every step but a spurious wake-up brings Complete nearer to its end. */
  lemma {:induction false} StepDescends(s: State, step: Step, s': State, batchSize: nat)
    requires Inv(s) && InLoop(s.threads[0]) && Next(s, step, s', batchSize) && !Spurious(s, step)
    ensures Remaining(s') < Remaining(s)
  {
    match step {
      case Work(t) =>
        TotalUpdate(Ahead, s.threads, t, s'.threads[t]);
      case Section(t) =>
        hide Inv, Total;
        LockRemaining(s, t);
        LookRemaining(Lock(s, t), t, batchSize);
      case _ =>
    }
  }

  /** A step taken while the master is in Complete. */
  ghost predicate Advances(s: State, step: Step, s': State, batchSize: nat) {
    s.threads != [] && InLoop(s.threads[0]) && Next(s, step, s', batchSize) && !Spurious(s, step)
  }

  /** A stretch of a run during which the master stays in Complete. */
  ghost predicate Completing(states: seq<State>, steps: seq<Step>, batchSize: nat) {
    |states| == |steps| + 1 && forall k :: 0 <= k < |steps| ==> Advances(states[k], steps[k], states[k + 1], batchSize)
  }

  /** Not counting spurious wake-ups, Complete returns within a number of steps known when it is
      called: a longer run would contradict this bound, and a run cannot get stuck before. */
  lemma {:induction false} CompleteEnds(states: seq<State>, steps: seq<Step>, batchSize: nat, k: nat)
    requires Completing(states, steps, batchSize) && Inv(states[0]) && k <= |steps|
    ensures Inv(states[k]) && k <= Remaining(states[0]) - Remaining(states[k])
  {
    hide Inv, Next, Spurious, Remaining;
    if k > 0 {
      CompleteEnds(states, steps, batchSize, k - 1);
      assert Advances(states[k - 1], steps[k - 1], states[k], batchSize);
      StepKeeps(states[k - 1], steps[k - 1], states[k], batchSize);
      StepDescends(states[k - 1], steps[k - 1], states[k], batchSize);
    }
  }
}
