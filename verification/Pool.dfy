/**
  The bounded parallel path of processMessages: a loop that launches one goroutine per message, a
  channel used as a semaphore, and a wait group.  Each goroutine runs its message, then receives
  from the channel, then signals the wait group.

  The `break` in the cancelled branch of the select leaves the select only, so the loop goes on to
  launch a goroutine that never put a token into the channel.
*/
module Pool {

  /** Where the launching loop stands. */
  datatype LoopPc = Checking | Selecting | Launching(token: bool) | Waiting | Returned

  /**
    `running` goroutines process a message, `draining` ones wait to receive, `signalling` ones have
    received and not yet signalled.  `extra` counts launches without a token; no step reads it.
  */
  datatype Pool = Pool(
    size: nat, capacity: nat, next: nat, pc: LoopPc, tokens: nat,
    running: nat, draining: nat, signalling: nat, cancelled: bool, extra: nat)

  function Start(size: nat, capacity: nat): Pool {
    Pool(size, capacity, 0, Checking, 0, 0, 0, 0, false, 0)
  }

  datatype Step = Cancel | Check | SelectToken | SelectCancelled | Launch | FinishMessage | Receive | Signal | Wait

  predicate Enabled(p: Pool, step: Step) {
    match step
    case Cancel => !p.cancelled
    case Check => p.pc == Checking
    case SelectToken => p.pc == Selecting && p.tokens < p.capacity
    case SelectCancelled => p.pc == Selecting && p.cancelled
    case Launch => p.pc.Launching?
    case FinishMessage => p.running > 0
    case Receive => p.draining > 0 && p.tokens > 0
    case Signal => p.signalling > 0
    case Wait => p.pc == Waiting && p.running + p.draining + p.signalling == 0
  }

  function Apply(p: Pool, step: Step): Pool
    requires Enabled(p, step)
  {
    match step
    case Cancel => p.(cancelled := true)
    case Check => p.(pc := if p.next >= p.size || p.cancelled then Waiting else Selecting)
    case SelectToken => p.(tokens := p.tokens + 1, pc := Launching(true))
    case SelectCancelled => p.(pc := Launching(false))
    case Launch =>
      p.(running := p.running + 1, next := p.next + 1, pc := Checking,
      extra := if p.pc.token then p.extra else p.extra + 1)
    case FinishMessage => p.(running := p.running - 1, draining := p.draining + 1)
    case Receive => p.(draining := p.draining - 1, tokens := p.tokens - 1, signalling := p.signalling + 1)
    case Signal => p.(signalling := p.signalling - 1)
    case Wait => p.(pc := Returned)
  }

  ghost predicate IsRun(size: nat, capacity: nat, states: seq<Pool>, steps: seq<Step>) {
    && |states| == |steps| + 1
    && states[0] == Start(size, capacity)
    && forall i :: 0 <= i < |steps| ==> Enabled(states[i], steps[i]) && states[i + 1] == Apply(states[i], steps[i])
  }

  /** Goroutines launched that have not received yet. */
  function Unfinished(p: Pool): nat {
    p.running + p.draining
  }

  /** Tokens are accounted for by unfinished goroutines, up to one launched on cancellation. */
  predicate Accounted(p: Pool) {
    && Unfinished(p) + (if p.pc == Launching(true) then 1 else 0) == p.tokens + p.extra
    && p.tokens <= p.capacity
    && p.extra <= 1
    && p.next <= p.size
    && (p.pc.Selecting? || p.pc.Launching? ==> p.next < p.size && p.extra == 0)
    && (p.extra == 1 || p.pc == Launching(false) ==> p.cancelled)
    && (p.pc == Returned ==> Unfinished(p) + p.signalling == 0)
    && (p.pc == Waiting || p.pc == Returned ==> p.cancelled || p.next == p.size)
  }

  lemma AccountedStep(p: Pool, step: Step)
    requires Accounted(p) && Enabled(p, step)
    ensures Accounted(Apply(p, step))
  {
  }

  lemma {:induction false} AccountedRun(size: nat, capacity: nat, states: seq<Pool>, steps: seq<Step>, k: nat)
    requires IsRun(size, capacity, states, steps) && k < |states|
    ensures Accounted(states[k]) && states[k].capacity == capacity && states[k].size == size
  {
    if k > 0 {
      AccountedRun(size, capacity, states, steps, k - 1);
      AccountedStep(states[k - 1], steps[k - 1]);
    }
  }

  /**
    In every schedule the unfinished goroutines exceed the tokens by at most one, that one only
    after a cancellation was selected; so at most capacity + 1 messages run at once.
  */
  lemma BoundedConcurrency(size: nat, capacity: nat, states: seq<Pool>, steps: seq<Step>, k: nat)
    requires IsRun(size, capacity, states, steps) && k < |states|
    ensures var p := states[k];
            && p.running <= Unfinished(p) <= capacity + p.extra
            && p.extra <= 1
            && (p.extra == 1 ==> p.cancelled && SelectedCancelled(steps, k))
  {
    AccountedRun(size, capacity, states, steps, k);
    ExtraIsSelected(size, capacity, states, steps, k);
  }

  /** Some select of the first k steps took the cancelled branch. */
  ghost predicate SelectedCancelled(steps: seq<Step>, k: nat)
    requires k <= |steps|
  {
    exists i :: 0 <= i < k && steps[i] == SelectCancelled
  }

  /** A launch without a token goes back to a cancelled select, and a cancelled select leads to one. */
  lemma {:induction false} ExtraIsSelected(size: nat, capacity: nat, states: seq<Pool>, steps: seq<Step>, k: nat)
    requires IsRun(size, capacity, states, steps) && k < |states|
    ensures SelectedCancelled(steps, k) <==> states[k].extra == 1 || states[k].pc == Launching(false)
  {
    if k > 0 {
      ExtraIsSelected(size, capacity, states, steps, k - 1);
      AccountedRun(size, capacity, states, steps, k - 1);
      assert SelectedCancelled(steps, k) <==> SelectedCancelled(steps, k - 1) || steps[k - 1] == SelectCancelled;
    }
  }

  // ---------------------------------------------------------------- how every schedule ends

  function LoopWork(p: Pool): nat
    requires p.next <= p.size
  {
    match p.pc
    case Checking => 6 * (p.size - p.next) + 2
    case Selecting => 6 * (p.size - p.next) + 1
    case Launching(_) => 6 * (p.size - p.next)
    case Waiting => 1
    case Returned => 0
  }

  function Work(p: Pool): nat
    requires p.next <= p.size
  {
    LoopWork(p) + 3 * p.running + 2 * p.draining + p.signalling + if p.cancelled then 0 else 1
  }

  lemma WorkDecreases(p: Pool, step: Step)
    requires Accounted(p) && Enabled(p, step)
    ensures Apply(p, step).next <= p.size && Work(Apply(p, step)) < Work(p)
  {
  }

  /** No schedule runs longer than the work a batch of this size holds. */
  lemma {:induction false} SchedulesAreFinite(size: nat, capacity: nat, states: seq<Pool>, steps: seq<Step>, k: nat)
    requires IsRun(size, capacity, states, steps) && k < |states|
    ensures states[k].next <= states[k].size && k + Work(states[k]) <= 6 * size + 3
  {
    if k > 0 {
      SchedulesAreFinite(size, capacity, states, steps, k - 1);
      AccountedRun(size, capacity, states, steps, k - 1);
      WorkDecreases(states[k - 1], steps[k - 1]);
      AccountedRun(size, capacity, states, steps, k);
    }
  }

  /** No step is left but a cancellation. */
  ghost predicate AtRest(p: Pool) {
    forall step :: Enabled(p, step) ==> step == Cancel
  }

  /**
    A schedule that comes to rest has returned if and only if no select took the cancelled branch,
    and then has run every message unless it was cancelled; otherwise one goroutine waits forever on
    the empty channel, and processMessages with it.
  */
  lemma ReturnsExactlyWithoutCancelledSelect(size: nat, capacity: nat, states: seq<Pool>, steps: seq<Step>, k: nat)
    requires IsRun(size, capacity, states, steps) && k < |states| && AtRest(states[k]) && capacity > 0
    ensures states[k].pc == Returned <==> !SelectedCancelled(steps, k)
    ensures states[k].pc == Returned && !states[k].cancelled ==> states[k].next == size
    ensures SelectedCancelled(steps, k) ==>
              var p := states[k]; p.pc == Waiting && p.draining == 1 && p.tokens == 0 && p.running == 0
  {
    var p := states[k];
    AccountedRun(size, capacity, states, steps, k);
    ExtraIsSelected(size, capacity, states, steps, k);
    assert !Enabled(p, Check) && !Enabled(p, SelectToken) && !Enabled(p, Launch);
    assert !Enabled(p, FinishMessage) && !Enabled(p, Receive) && !Enabled(p, Signal) && !Enabled(p, Wait);
  }

  /** The hang is real: with any message and any capacity, a cancellation between check and select can cause it. */
  lemma CancellationCanHang(size: nat, capacity: nat) returns (states: seq<Pool>, steps: seq<Step>)
    requires size > 0 && capacity > 0
    ensures IsRun(size, capacity, states, steps)
    ensures states[|steps|].pc == Waiting && states[|steps|].extra == 1 && AtRest(states[|steps|])
  {
    var p0 := Start(size, capacity);
    steps := [Check, Cancel, SelectCancelled, Launch, Check, FinishMessage];
    var p1 := Apply(p0, steps[0]);
    var p2 := Apply(p1, steps[1]);
    var p3 := Apply(p2, steps[2]);
    var p4 := Apply(p3, steps[3]);
    var p5 := Apply(p4, steps[4]);
    var p6 := Apply(p5, steps[5]);
    states := [p0, p1, p2, p3, p4, p5, p6];
  }
}
