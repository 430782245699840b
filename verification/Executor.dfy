/**
  The two halves of processMessages joined: the pool's loop and goroutines, and the store calls that
  the goroutines make.  A goroutine works on its message once launched, and drains when its attempt
  has returned.
*/
module Executor {
  import opened Models
  import opened Delivery
  import opened Batch
  import Pool
  import opened Counting

  /** `finished` holds the positions of the messages whose goroutines have left the message behind. */
  datatype Joint = Joint(pool: Pool.Pool, stores: State, finished: set<nat>)

  datatype Turn = Manage(move: Pool.Step) | Leave(i: nat) | Work(step: Step)

  /** The attempts whose goroutines have been launched. */
  function Launched(order: seq<nat>, n: nat): set<nat>
    requires n <= |order|
  {
    set i | 0 <= i < n :: order[i]
  }

  ghost predicate Allowed(cfg: Config, order: seq<nat>, j: Joint, step: Turn) {
    match step
    case Manage(s) => s != Pool.FinishMessage && Pool.Enabled(j.pool, s)
    case Leave(i) =>
      && i < j.pool.next && i < |order| && i !in j.finished && Pool.Enabled(j.pool, Pool.FinishMessage)
      && order[i] < |j.stores.attempts| && j.stores.attempts[order[i]].pc == Finished
    case Work(s) =>
      && j.pool.next <= |order| && BatchStep(j.stores, Launched(order, j.pool.next), s)
      && Enabled(cfg, j.stores, s)
  }

  ghost function Play(cfg: Config, order: seq<nat>, j: Joint, step: Turn): Joint
    requires Allowed(cfg, order, j, step)
  {
    match step
    case Manage(s) => j.(pool := Pool.Apply(j.pool, s))
    case Leave(i) => j.(pool := Pool.Apply(j.pool, Pool.FinishMessage), finished := j.finished + {i})
    case Work(s) => j.(stores := Apply(cfg, j.stores, s))
  }

  datatype JointRun = JointRun(states: seq<Joint>, steps: seq<Turn>)

  /** The parallel path on the attempts `order`, in the order of their messages, from the stores `s0`. */
  ghost predicate IsCall(cfg: Config, s0: State, order: seq<nat>, capacity: nat, r: JointRun) {
    && |r.states| == |r.steps| + 1
    && r.states[0] == Joint(Pool.Start(|order|, capacity), s0, {})
    && (forall i :: 0 <= i < |r.steps| ==>
                      Allowed(cfg, order, r.states[i], r.steps[i])
                      && r.states[i + 1] == Play(cfg, order, r.states[i], r.steps[i]))
    && (forall i :: 0 <= i < |r.states| ==> NoExpiry(cfg, s0, r.states[i].stores.now))
  }

  /** A batch of fresh attempts on events with pairwise distinct IDs, none of them listed twice. */
  ghost predicate IsBatch(cfg: Config, s0: State, order: seq<nat>) {
    && Starting(cfg, s0, Launched(order, |order|))
    && forall i, j :: 0 <= i < j < |order| ==> order[i] != order[j]
  }

  /** Launched goroutines are running their message or have finished it, and the others have not moved. */
  ghost predicate Inv(cfg: Config, s0: State, order: seq<nat>, j: Joint) {
    && Pool.Accounted(j.pool) && j.pool.size == |order|
    && BatchInv(cfg, s0, j.stores, Launched(order, |order|))
    && |j.finished| + j.pool.running == j.pool.next
    && (forall i :: i in j.finished ==>
                      i < j.pool.next && order[i] < |j.stores.attempts|
                      && j.stores.attempts[order[i]].pc == Finished)
    && (forall i :: j.pool.next <= i < |order| ==>
                      order[i] < |s0.attempts| == |j.stores.attempts|
                      && j.stores.attempts[order[i]] == s0.attempts[order[i]])
  }

  lemma InvManage(cfg: Config, s0: State, order: seq<nat>, j: Joint, step: Pool.Step)
    requires IsBatch(cfg, s0, order) && Inv(cfg, s0, order, j) && Allowed(cfg, order, j, Manage(step))
    ensures Inv(cfg, s0, order, Play(cfg, order, j, Manage(step)))
  {
    Pool.AccountedStep(j.pool, step);
  }

  lemma InvFinish(cfg: Config, s0: State, order: seq<nat>, j: Joint, i: nat)
    requires IsBatch(cfg, s0, order) && Inv(cfg, s0, order, j) && Allowed(cfg, order, j, Leave(i))
    ensures Inv(cfg, s0, order, Play(cfg, order, j, Leave(i)))
  {
    Pool.AccountedStep(j.pool, Pool.FinishMessage);
  }

  lemma InvWork(cfg: Config, s0: State, order: seq<nat>, j: Joint, step: Step)
    requires IsBatch(cfg, s0, order) && Inv(cfg, s0, order, j) && Allowed(cfg, order, j, Work(step))
    requires NoExpiry(cfg, s0, j.stores.now)
    ensures Inv(cfg, s0, order, Play(cfg, order, j, Work(step)))
  {
    var batch := Launched(order, |order|);
    assert step.Act? ==> step.a in batch;
    BatchInvStep(cfg, s0, j.stores, batch, step);
    var t := Apply(cfg, j.stores, step);
    forall i | j.pool.next <= i < |order| ensures order[i] < |t.attempts|
                                                  && t.attempts[order[i]] == s0.attempts[order[i]] {
      assert order[i] in batch;
      assert step.Act? ==> step.a != order[i];
    }
  }

  lemma {:induction false} InvRun(cfg: Config, s0: State, order: seq<nat>, capacity: nat, r: JointRun,
                                  k: nat)
    requires IsBatch(cfg, s0, order) && IsCall(cfg, s0, order, capacity, r) && k < |r.states|
    ensures Inv(cfg, s0, order, r.states[k])
  {
    if k == 0 {
      BatchInvStart(cfg, s0, Launched(order, |order|));
      assert forall i :: 0 <= i < |order| ==> order[i] in Launched(order, |order|);
    } else {
      InvRun(cfg, s0, order, capacity, r, k - 1);
      var j := r.states[k - 1];
      match r.steps[k - 1] {
        case Manage(step) => InvManage(cfg, s0, order, j, step);
        case Leave(i) => InvFinish(cfg, s0, order, j, i);
        case Work(step) => InvWork(cfg, s0, order, j, step);
      }
    }
  }

  /** A launched message is finished at the end, and the loop over the launched ones finishes it too. */
  lemma EndOf(cfg: Config, s0: State, order: seq<nat>, end: Joint, i: nat)
    requires Inv(cfg, s0, order, end) && end.pool.pc == Pool.Returned && i < |order| && order[i] < |s0.attempts|
    requires forall j, k :: 0 <= j < k < |order| ==> order[j] != order[k]
    requires forall k :: 0 <= k < |order| ==> order[k] < |s0.attempts|
    ensures if i < end.pool.next then end.stores.attempts[order[i]].pc == Finished
            else end.stores.attempts[order[i]] == s0.attempts[order[i]]
              == RunEach(cfg, s0, order[..end.pool.next]).attempts[order[i]]
  {
    var n := end.pool.next;
    Pigeonhole(end.finished, n);
    if i < n {
      assert i in end.finished;
    } else {
      assert order[i] !in order[..n];
      RunEachMovesOnly(cfg, s0, order[..n], order[i]);
    }
  }

  lemma EndIsAlike(cfg: Config, s0: State, order: seq<nat>, end: Joint)
    requires Inv(cfg, s0, order, end) && end.pool.pc == Pool.Returned
    requires forall j, k :: 0 <= j < k < |order| ==> order[j] != order[k]
    requires forall i :: 0 <= i < |order| ==> order[i] < |s0.attempts|
    requires forall i :: end.pool.next <= i < |order| ==> s0.attempts[order[i]].pc != AtAck
    requires var t := RunEach(cfg, s0, order[..end.pool.next]);
             forall i :: 0 <= i < end.pool.next ==> t.attempts[order[i]].pc == Finished
    ensures Alike(end.stores, RunEach(cfg, s0, order[..end.pool.next]), Launched(order, |order|))
  {
    var t := RunEach(cfg, s0, order[..end.pool.next]);
    forall a | a in Launched(order, |order|)
      ensures a < |end.stores.attempts| && a < |t.attempts|
              && end.stores.attempts[a].pc == t.attempts[a].pc != AtAck
    {
      var i :| 0 <= i < |order| && order[i] == a;
      EndOf(cfg, s0, order, end, i);
    }
  }

  /**
    When the parallel call returns, its stores are those of the sequential loop cancelled before the
    first message it did not launch; if nothing was cancelled, that is the whole sequential loop.
  */
  lemma ReturnedIsSequential(cfg: Config, s0: State, order: seq<nat>, capacity: nat, r: JointRun)
    requires IsBatch(cfg, s0, order) && IsCall(cfg, s0, order, capacity, r)
    requires r.states[|r.steps|].pool.pc == Pool.Returned
    ensures var end := r.states[|r.steps|];
            && end.pool.next <= |order| && (!end.pool.cancelled ==> end.pool.next == |order|)
            && (forall i :: 0 <= i < |order| ==> order[i] < |s0.attempts|)
            && ViewOf(end.stores) == ViewOf(RunEach(cfg, s0, order[..end.pool.next]))
  {
    var end, batch := r.states[|r.steps|], Launched(order, |order|);
    InvRun(cfg, s0, order, capacity, r, |r.steps|);
    var done := order[..end.pool.next];
    assert forall i :: 0 <= i < |order| ==> order[i] in batch;
    RunEachInv(cfg, s0, batch, done);
    assert forall i :: 0 <= i < end.pool.next ==> done[i] == order[i];
    EndIsAlike(cfg, s0, order, end);
    FinalViewsAgree(cfg, s0, batch, end.stores, RunEach(cfg, s0, done));
  }

  // ---------------------------------------------------------------- calls do return

  /** Nothing is left to do but to cancel, or to let time pass. */
  ghost predicate AtRest(cfg: Config, order: seq<nat>, j: Joint) {
    forall turn :: Allowed(cfg, order, j, turn) ==> turn == Manage(Pool.Cancel) || (turn.Work? && turn.step.Tick?)
  }

  lemma RestHasFinished(cfg: Config, s0: State, order: seq<nat>, j: Joint, i: nat)
    requires IsBatch(cfg, s0, order) && Inv(cfg, s0, order, j) && AtRest(cfg, order, j) && i < j.pool.next
    ensures order[i] < |j.stores.attempts| && j.stores.attempts[order[i]].pc == Finished && i in j.finished
  {
    var a := order[i];
    assert a in Launched(order, |order|) && a in Launched(order, j.pool.next);
    assert OnTrack(cfg, s0, j.stores, j.stores.attempts[a]);
    if j.stores.attempts[a].pc != Finished {
      var step := Act(a, NextCall(j.stores.attempts[a].pc));
      assert Allowed(cfg, order, j, Work(step));
    } else if i !in j.finished {
      Unfinished(j.finished, j.pool.next, i);
      assert Allowed(cfg, order, j, Leave(i));
    }
  }

  lemma Unfinished(finished: set<nat>, n: nat, i: nat)
    requires (forall x :: x in finished ==> x < n) && i < n && i !in finished
    ensures |finished| < n
  {
    Fits(finished + {i}, n);
  }

  /** A call that is not cancelled comes to rest only by returning, with every message handled. */
  lemma RestHasReturned(cfg: Config, s0: State, order: seq<nat>, j: Joint)
    requires IsBatch(cfg, s0, order) && Inv(cfg, s0, order, j) && AtRest(cfg, order, j)
    requires j.pool.capacity > 0 && !j.pool.cancelled
    ensures j.pool.pc == Pool.Returned && j.pool.next == |order|
  {
    var p := j.pool;
    forall x: nat | x < p.next ensures x in j.finished {
      RestHasFinished(cfg, s0, order, j, x);
    }
    AllFinishedCount(j.finished, p.next);
    assert !Allowed(cfg, order, j, Manage(Pool.Check)) && !Allowed(cfg, order, j, Manage(Pool.SelectToken));
    assert !Allowed(cfg, order, j, Manage(Pool.Launch)) && !Allowed(cfg, order, j, Manage(Pool.Receive));
    assert !Allowed(cfg, order, j, Manage(Pool.Signal)) && !Allowed(cfg, order, j, Manage(Pool.Wait));
  }

  lemma {:induction false} AllFinishedCount(finished: set<nat>, n: nat)
    requires forall x: nat :: x < n ==> x in finished
    ensures |finished| >= n
  {
    if n > 0 {
      AllFinishedCount(finished - {n - 1}, n - 1);
    }
  }

  lemma Extend(cfg: Config, s0: State, order: seq<nat>, capacity: nat, r: JointRun, turn: Turn) returns (r': JointRun)
    requires IsCall(cfg, s0, order, capacity, r) && Allowed(cfg, order, r.states[|r.steps|], turn)
    requires NoExpiry(cfg, s0, Play(cfg, order, r.states[|r.steps|], turn).stores.now)
    ensures IsCall(cfg, s0, order, capacity, r') && |r'.states| == |r.states| + 1
    ensures r'.states[|r'.steps|] == Play(cfg, order, r.states[|r.steps|], turn)
  {
    r' := JointRun(r.states + [Play(cfg, order, r.states[|r.steps|], turn)], r.steps + [turn]);
  }

  /** The goroutine of a launched message does all its work. */
  lemma {:induction false} WorkAlone(cfg: Config, s0: State, order: seq<nat>, capacity: nat, r: JointRun, a: nat)
    returns (r': JointRun)
    requires IsCall(cfg, s0, order, capacity, r) && NoExpiry(cfg, s0, s0.now)
    requires var j := r.states[|r.steps|];
             && j.pool.next <= |order| && a in Launched(order, j.pool.next) && a < |j.stores.attempts|
             && j.stores.now == s0.now
             && j.stores.attempts[a].pc != Crashed
    ensures IsCall(cfg, s0, order, capacity, r')
    ensures r'.states[|r'.steps|] == r.states[|r.steps|].(stores := RunAlone(cfg, r.states[|r.steps|].stores, a))
    ensures var t := r'.states[|r'.steps|].stores; a < |t.attempts| && t.attempts[a].pc == Finished && t.now == s0.now
    decreases Remaining(r.states[|r.steps|].stores.attempts[a].pc)
  {
    var s := r.states[|r.steps|].stores;
    if s.attempts[a].pc == Finished {
      r' := r;
    } else {
      r' := Extend(cfg, s0, order, capacity, r, Work(Act(a, NextCall(s.attempts[a].pc))));
      r' := WorkAlone(cfg, s0, order, capacity, r', a);
    }
  }

  function Below(n: nat): (below: set<nat>)
    ensures forall x: nat :: x in below <==> x < n
  {
    if n == 0 then {} else Below(n - 1) + {n - 1}
  }

  /** The first `n` messages have been handled, one after the other. */
  ghost predicate HandledFirst(cfg: Config, s0: State, order: seq<nat>, capacity: nat, j: Joint, n: nat) {
    && n <= |order| && (forall i :: 0 <= i < |order| ==> order[i] < |s0.attempts|)
    && j.pool == Pool.Start(|order|, capacity).(next := n) && j.stores == RunEach(cfg, s0, order[..n])
    && j.stores.now == s0.now && j.finished == Below(n)
  }

  /** The loop launches the next message, with a token. */
  lemma LaunchNext(cfg: Config, s0: State, order: seq<nat>, capacity: nat, r: JointRun, n: nat) returns (r': JointRun)
    requires capacity > 0 && n < |order| && IsCall(cfg, s0, order, capacity, r)
    requires r.states[|r.steps|].pool == Pool.Start(|order|, capacity).(next := n)
    requires NoExpiry(cfg, s0, r.states[|r.steps|].stores.now)
    ensures IsCall(cfg, s0, order, capacity, r')
    ensures r'.states[|r'.steps|] ==
            r.states[|r.steps|].(pool := Pool.Start(|order|, capacity).(next := n + 1, tokens := 1, running := 1))
  {
    r' := Extend(cfg, s0, order, capacity, r, Manage(Pool.Check));
    r' := Extend(cfg, s0, order, capacity, r', Manage(Pool.SelectToken));
    r' := Extend(cfg, s0, order, capacity, r', Manage(Pool.Launch));
  }

  /** The goroutine leaves its message, gives the token back and signals. */
  lemma DrainNext(cfg: Config, s0: State, order: seq<nat>, capacity: nat, r: JointRun, n: nat) returns (r': JointRun)
    requires n < |order| && IsCall(cfg, s0, order, capacity, r)
    requires r.states[|r.steps|].pool == Pool.Start(|order|, capacity).(next := n + 1, tokens := 1, running := 1)
    requires NoExpiry(cfg, s0, r.states[|r.steps|].stores.now) && n !in r.states[|r.steps|].finished
    requires var t := r.states[|r.steps|].stores; order[n] < |t.attempts| && t.attempts[order[n]].pc == Finished
    ensures IsCall(cfg, s0, order, capacity, r')
    ensures r'.states[|r'.steps|] ==
            r.states[|r.steps|].(pool := Pool.Start(|order|, capacity).(next := n + 1), finished :=
            r.states[|r.steps|].finished + {n})
  {
    r' := Extend(cfg, s0, order, capacity, r, Leave(n));
    r' := Extend(cfg, s0, order, capacity, r', Manage(Pool.Receive));
    r' := Extend(cfg, s0, order, capacity, r', Manage(Pool.Signal));
  }

  /** A message the loop has not reached is where it started. */
  lemma NextIsFresh(cfg: Config, s0: State, order: seq<nat>, n: nat)
    requires IsBatch(cfg, s0, order) && n < |order| && forall i :: 0 <= i < |order| ==> order[i] < |s0.attempts|
    ensures order[n] in Launched(order, n + 1) && s0.attempts[order[n]].pc != Crashed
    ensures RunEach(cfg, s0, order[..n]).attempts[order[n]] == s0.attempts[order[n]]
    ensures RunAlone(cfg, RunEach(cfg, s0, order[..n]), order[n]) == RunEach(cfg, s0, order[..n + 1])
  {
    assert order[n] in Launched(order, |order|);
    assert order[n] !in order[..n];
    RunEachMovesOnly(cfg, s0, order[..n], order[n]);
    assert order[..n + 1][..n] == order[..n];
  }

  lemma HandleNext(cfg: Config, s0: State, order: seq<nat>, capacity: nat, r: JointRun, n: nat) returns (r': JointRun)
    requires IsBatch(cfg, s0, order) && capacity > 0 && NoExpiry(cfg, s0, s0.now) && IsCall(cfg, s0, order, capacity, r)
    requires HandledFirst(cfg, s0, order, capacity, r.states[|r.steps|], n) && n < |order|
    ensures IsCall(cfg, s0, order, capacity, r') && HandledFirst(cfg, s0, order, capacity, r'.states[|r'.steps|], n + 1)
  {
    NextIsFresh(cfg, s0, order, n);
    r' := LaunchNext(cfg, s0, order, capacity, r, n);
    r' := WorkAlone(cfg, s0, order, capacity, r', order[n]);
    r' := DrainNext(cfg, s0, order, capacity, r', n);
  }

  lemma {:induction false} HandleFirst(cfg: Config, s0: State, order: seq<nat>, capacity: nat, n: nat)
    returns (r: JointRun)
    requires IsBatch(cfg, s0, order) && capacity > 0 && NoExpiry(cfg, s0, s0.now) && n <= |order|
    ensures IsCall(cfg, s0, order, capacity, r) && HandledFirst(cfg, s0, order, capacity, r.states[|r.steps|], n)
  {
    if n == 0 {
      r := JointRun([Joint(Pool.Start(|order|, capacity), s0, {})], []);
      assert forall i :: 0 <= i < |order| ==> order[i] in Launched(order, |order|);
    } else {
      r := HandleFirst(cfg, s0, order, capacity, n - 1);
      r := HandleNext(cfg, s0, order, capacity, r, n - 1);
    }
  }

  /** Every batch has a parallel call that returns, uncancelled, whatever the concurrency. */
  lemma CallReturns(cfg: Config, s0: State, order: seq<nat>, capacity: nat) returns (r: JointRun)
    requires IsBatch(cfg, s0, order) && capacity > 0 && NoExpiry(cfg, s0, s0.now)
    ensures IsCall(cfg, s0, order, capacity, r)
    ensures r.states[|r.steps|].pool.pc == Pool.Returned && !r.states[|r.steps|].pool.cancelled
  {
    r := HandleFirst(cfg, s0, order, capacity, |order|);
    r := Extend(cfg, s0, order, capacity, r, Manage(Pool.Check));
    r := Extend(cfg, s0, order, capacity, r, Manage(Pool.Wait));
  }
}
