/** The parallel check queue (src/checkqueue.h): its shared state and critical sections. */
module CheckQueues {

  import opened Options

  /** A check, with what running it returns: None when it passes. */
  datatype Check = Check(id: nat, result: Option<int>)

  /** The state guarded by the mutex. */
  datatype Shared = Shared(queue: seq<Check>, nIdle: int, nTotal: int, result: Option<int>, nTodo: int)

  /** What a thread does after looking at the queue. */
  datatype Decision = Return(verdict: Option<int>) | Wait | Take(batch: seq<Check>, doWork: bool)

  function Max(a: int, b: int): int { if a < b then b else a }

  function Min(a: int, b: int): int { if a < b then a else b }

  /** How many checks to take: between 1 and the batch size, aiming for smaller batches as the
      queue empties. */
  function BatchOf(s: Shared, batchSize: nat): (n: int)
    requires s.queue != [] && s.nTotal >= 0 && s.nIdle >= 0
    ensures 1 <= n <= |s.queue| && n <= Max(1, batchSize)
  {
    var share := |s.queue| / (s.nTotal + s.nIdle + 1);
    Max(1, Min(batchSize, share))
  }

  /** The first failure in a batch. */
  ghost function BatchResult(batch: seq<Check>): (r: Option<int>)
    ensures r.None? <==> forall i :: 0 <= i < |batch| ==> batch[i].result.None?
    ensures r.Some? ==> exists i :: 0 <= i < |batch| && batch[i].result == r
  {
    if batch == [] then None
    else if batch[0].result.Some? then batch[0].result
    else
      var r := BatchResult(batch[1..]);
      assert forall i :: 1 <= i < |batch| ==> batch[i] == batch[1..][i - 1];
      assert r.Some? ==> var i :| 0 <= i < |batch[1..]| && batch[1..][i].result == r; batch[i + 1].result == r;
      r
  }

  /** Run the checks of a batch, up to the first failure. */
  method RunBatch(vChecks: seq<Check>, doWork: bool, localResult: Option<int>) returns (r: Option<int>)
    requires vChecks != []
    ensures r == if doWork then BatchResult(vChecks) else localResult
  {
    r := localResult;
    if doWork {
      var k := 0;
      while k < |vChecks|
        invariant 0 <= k <= |vChecks| && BatchResult(vChecks) == BatchResult(vChecks[k..])
        invariant k > 0 ==> r.None?
      {
        r := vChecks[k].result;
        if r.Some? { return; }
        assert vChecks[k..][1..] == vChecks[k + 1..];
        k := k + 1;
      }
    }
  }

  // ---------- critical sections, on values ----------

  /** Clean-up after a batch. */
  function CleanedUp(s: Shared, nNow: nat, local: Option<int>): Shared {
    s.(result := if local.Some? && s.result.None? then local else s.result, nTodo := s.nTodo - nNow)
  }

  function LocalAfter(s: Shared, local: Option<int>): Option<int> { if local.Some? && s.result.None? then s.result else local }

  function Decided(s: Shared, fMaster: bool, batchSize: nat): Decision
    requires s.nTotal >= 0 && s.nIdle >= 0
  {
    if s.queue == [] then (if fMaster && s.nTodo == 0 then Return(s.result) else Wait)
    else Take(s.queue[|s.queue| - BatchOf(s, batchSize)..], s.result.None?)
  }

  function AfterDecision(s: Shared, d: Decision): Shared
    requires d.Take? ==> |d.batch| <= |s.queue|
  {
    match d
    case Return(_) => s.(nTotal := s.nTotal - 1, result := None)
    case Wait => s.(nIdle := s.nIdle + 1)
    case Take(batch, _) => s.(queue := s.queue[..|s.queue| - |batch|])
  }

  class CheckQueue {
    var queue: seq<Check>
    var nIdle: int
    var nTotal: int
    var result: Option<int>
    var nTodo: int
    const nBatchSize: nat

    ghost function View(): Shared
      reads this
    {
      Shared(queue, nIdle, nTotal, result, nTodo)
    }

    constructor (batchSize: nat)
      ensures View() == Shared([], 0, 0, None, 0) && nBatchSize == batchSize
    {
      queue, nIdle, nTotal, result, nTodo, nBatchSize := [], 0, 0, None, 0, batchSize;
    }

    method Add(vChecks: seq<Check>) returns (notify: nat)
      modifies this
      ensures View() == old(View()).(queue := old(queue) + vChecks, nTodo := old(nTodo) + |vChecks|)
      ensures notify == if vChecks == [] then 0 else if |vChecks| == 1 then 1 else 2
    {
      if vChecks == [] { return 0; }
      queue := queue + vChecks;
      nTodo := nTodo + |vChecks|;
      notify := if |vChecks| == 1 then 1 else 2;
    }

    /** The start of the critical section: clean up after the previous run of the loop. */
    method CleanUp(fMaster: bool, nNow: nat, localResult: Option<int>) returns (local: Option<int>, notifyMaster: bool)
      modifies this
      ensures nNow > 0 ==> View() == CleanedUp(old(View()), nNow, localResult) && local == LocalAfter(old(View()), localResult)
      ensures nNow > 0 ==> (notifyMaster <==> nTodo == 0 && !fMaster)
      ensures nNow == 0 ==> View() == old(View()).(nTotal := old(nTotal) + 1) && local == localResult && !notifyMaster
    {
      local, notifyMaster := localResult, false;
      if nNow > 0 {
        if local.Some? && result.None? { local, result := result, local; }
        nTodo := nTodo - nNow;
        if nTodo == 0 && !fMaster { notifyMaster := true; }
      } else {
        nTotal := nTotal + 1;
      }
    }

    /** Look at the queue: return the verdict, wait, or take a batch. */
    method Decide(fMaster: bool) returns (d: Decision)
      requires nTotal >= 0 && nIdle >= 0
      modifies this
      ensures d == Decided(old(View()), fMaster, nBatchSize)
      ensures d.Take? ==> old(queue) == queue + d.batch && 1 <= |d.batch| <= Max(1, nBatchSize)
      ensures View() == AfterDecision(old(View()), d)
    {
      if queue == [] {
        if fMaster && nTodo == 0 {
          nTotal := nTotal - 1;
          d := Return(result);
          result := None;
          return;
        }
        nIdle := nIdle + 1;
        return Wait;
      }
      var nNow := BatchOf(Shared(queue, nIdle, nTotal, result, nTodo), nBatchSize);
      d := Take(queue[|queue| - nNow..], result.None?);
      queue := queue[..|queue| - nNow];
    }
  }
}
