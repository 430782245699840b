/**
  The delivery protocol as a step system.

  Any number of workers consume one consumer group; every call that
  `processSingleMessageIdempotent` makes to a shared store is one atomic step, and steps of
  different attempts interleave freely.  A step label carries everything that is not determined by
  the state (which attempt moves, whether a call fails, how far the clock advances), so that
  `Apply` is a function and a run is a sequence of labels with the states between them.

  Redis keeps a key readable up to and including its expiry instant.
*/
module Delivery {
  import opened Models

  /** Which idempotency store the workers share; `Absent` is the nil store of the opt-out mode. */
  datatype Store = Redis | Memory | Absent

  /**
    `parses` is the outcome of detection, drift analysis, parsing and normalization as a function
    of payload and format hint; `claimIdle` is 0 when crash recovery is disabled.
  */
  datatype Config = Config(
    store: Store, lockTTL: nat, doneTTL: nat, claimIdle: nat, parses: (string, string) -> bool)

  /** A stream entry, classified by what `parseXMessage` can make of it. */
  datatype Entry = NoPayload | Undecodable(text: string) | Decodable(event: RawEvent)

  function ParseXMessage(entry: Entry): Option<RawEvent> {
    match entry
    case Decodable(event) => Some(event)
    case _ => None
  }

  /** The program point of an attempt: the store call it makes next. */
  datatype Pc = AtIsDone | AtClaim | AtArchive | AtPipeline | AtRelease | AtMarkDone | AtAck | Finished | Crashed

  /** One call of processSingleMessageIdempotent.  No step reads `checkedAt` or `claimedAt`: they record history. */
  datatype Attempt = Attempt(msg: nat, event: RawEvent, pc: Pc, checkedAt: nat, claimedAt: nat) {
    /** Between taking the processing lock and giving the event up or marking it done. */
    predicate Holding() {
      pc == AtArchive || pc == AtPipeline || pc == AtRelease || pc == AtMarkDone
    }
  }

  /** `lockOwner` records who last set a lock; no step reads it. */
  datatype State = State(
    now: nat,
    stream: seq<Entry>,
    cursor: nat,
    pending: map<nat, nat>,
    acked: set<nat>,
    locks: map<string, nat>,
    lockOwner: map<string, nat>,
    done: map<string, nat>,
    archive: map<string, RawEvent>,
    attempts: seq<Attempt>)

  const Init := State(0, [], 0, map[], {}, map[], map[], map[], map[], [])

  /** A failed call may or may not have reached the store. */
  datatype Outcome = Success | Failure(applied: bool) {
    predicate Applied() {
      Success? || applied
    }
  }

  /** The calls of one attempt, with how each turns out; `Crash` ends its worker. */
  datatype Call =
    | Crash
    | IsDone(failed: bool)
    | Claim(outcome: Outcome)
    | Archive(outcome: Outcome)
    | Pipeline
    | Release(outcome: Outcome)
    | MarkDone(outcome: Outcome)
    | Ack(outcome: Outcome)

  datatype Step =
    | Publish(entry: Entry)
    | Deliver
    | Reclaim(msg: nat)
    | Tick(elapsed: nat)
    | Act(a: nat, call: Call)

  predicate DoneLive(cfg: Config, s: State, id: string) {
    id in s.done && (cfg.store.Redis? ==> s.now <= s.done[id])
  }

  predicate LockLive(cfg: Config, s: State, id: string) {
    id in s.locks && (cfg.store.Redis? ==> s.now <= s.locks[id])
  }

  /** The call an attempt at `pc` makes next; a worker may crash at any point before the attempt returns. */
  predicate Calls(pc: Pc, call: Call) {
    match call
    case Crash => pc != Finished && pc != Crashed
    case IsDone(_) => pc == AtIsDone
    case Claim(_) => pc == AtClaim
    case Archive(_) => pc == AtArchive
    case Pipeline => pc == AtPipeline
    case Release(_) => pc == AtRelease
    case MarkDone(_) => pc == AtMarkDone
    case Ack(_) => pc == AtAck
  }

  predicate Enabled(cfg: Config, s: State, step: Step) {
    match step
    case Publish(_) => true
    case Deliver => s.cursor < |s.stream|
    case Reclaim(m) =>
      cfg.claimIdle > 0 && m in s.pending && m < |s.stream| && s.pending[m] + cfg.claimIdle <= s.now
    case Tick(_) => true
    case Act(a, call) => a < |s.attempts| && Calls(s.attempts[a].pc, call)
  }

  predicate Accepts(cfg: Config, event: RawEvent) {
    cfg.parses(event.payload, event.format)
  }

  /** The control flow of processSingleMessageIdempotent: where an attempt stands after a call. */
  function Advance(cfg: Config, s: State, att: Attempt, call: Call): (next: Attempt)
    ensures next.msg == att.msg && next.event == att.event
  {
    match call
    case Crash => att.(pc := Crashed)
    case IsDone(failed) =>
      if !failed && DoneLive(cfg, s, att.event.eventId) then att.(pc := AtAck)
      else att.(pc := AtClaim, checkedAt := s.now)
    case Claim(outcome) =>
      if outcome.Success? && LockLive(cfg, s, att.event.eventId) then att.(pc := Finished)
      else att.(pc := AtArchive, claimedAt := s.now)
    case Archive(_) => att.(pc := AtPipeline)
    case Pipeline =>
      att.(pc := if Accepts(cfg, att.event) then (if cfg.store.Absent? then AtAck else AtMarkDone)
      else if cfg.store.Absent? then Finished else AtRelease)
    case Release(_) => att.(pc := Finished)
    case MarkDone(_) => att.(pc := AtAck)
    case Ack(_) => att.(pc := Finished)
  }

  /** What a call of attempt `a` does to the shared stores. */
  function Effect(cfg: Config, s: State, a: nat, call: Call): (t: State)
    requires a < |s.attempts|
    ensures t.now == s.now && t.stream == s.stream && t.cursor == s.cursor && t.attempts == s.attempts
    ensures !call.Ack? ==> t.pending == s.pending && t.acked == s.acked
  {
    var att := s.attempts[a];
    var id := att.event.eventId;
    match call
    case Claim(outcome) =>  // SET NX with expiry
      if outcome.Applied() && !LockLive(cfg, s, id) then
        s.(locks := s.locks[id := s.now + cfg.lockTTL], lockOwner := s.lockOwner[id := a])
      else s
    case Archive(outcome) =>  // the raw store refuses an event without an ID and otherwise overwrites
      if outcome.Applied() && id != "" then s.(archive := s.archive[id := att.event]) else s
    case Release(outcome) =>  // DEL, whoever set the lock
      if outcome.Applied() then s.(locks := s.locks - {id}) else s
    case MarkDone(outcome) =>  // the memory store also drops the lock
      if outcome.Applied() then
        s.(done := s.done[id := s.now + cfg.doneTTL], locks := if cfg.store.Memory? then s.locks - {id} else s.locks)
      else s
    case Ack(outcome) =>  // XACK: only a pending entry is acknowledged
      if outcome.Applied() && att.msg in s.pending then
        s.(pending := s.pending - {att.msg}, acked := s.acked + {att.msg})
      else s
    case _ => s
  }

  /** The attempt that an entry's delivery begins; a malformed entry begins none. */
  function Begin(cfg: Config, entry: Entry, m: nat, now: nat): seq<Attempt> {
    match ParseXMessage(entry)
    case None => []
    case Some(event) => [Attempt(m, event, if cfg.store.Absent? then AtArchive else AtIsDone, now, now)]
  }

  /** Entry `m` is handed to a consumer, and its idle time restarts. */
  function Hand(cfg: Config, s: State, m: nat): State
    requires m < |s.stream|
  {
    s.(pending := s.pending[m := s.now], attempts := s.attempts + Begin(cfg, s.stream[m], m, s.now))
  }

  function Apply(cfg: Config, s: State, step: Step): State
    requires Enabled(cfg, s, step)
  {
    match step
    case Publish(entry) => s.(stream := s.stream + [entry])
    case Deliver => Hand(cfg, s.(cursor := s.cursor + 1), s.cursor)
    case Reclaim(m) => Hand(cfg, s, m)
    case Tick(elapsed) => s.(now := s.now + elapsed)
    case Act(a, call) =>
      Effect(cfg, s, a, call).(attempts := s.attempts[a := Advance(cfg, s, s.attempts[a], call)])
  }

  datatype Run = Run(states: seq<State>, steps: seq<Step>)

  /** `r` starts in `from` and every step is enabled and applied. */
  ghost predicate RunFrom(cfg: Config, from: State, r: Run) {
    && |r.states| == |r.steps| + 1
    && r.states[0] == from
    && forall i :: 0 <= i < |r.steps| ==>
                     Enabled(cfg, r.states[i], r.steps[i]) && r.states[i + 1] == Apply(cfg, r.states[i], r.steps[i])
  }

  ghost predicate IsRun(cfg: Config, r: Run) {
    RunFrom(cfg, Init, r)
  }

  lemma Append(cfg: Config, from: State, r: Run, step: Step) returns (r': Run)
    requires RunFrom(cfg, from, r) && Enabled(cfg, r.states[|r.steps|], step)
    ensures r' == Run(r.states + [Apply(cfg, r.states[|r.steps|], step)], r.steps + [step])
    ensures RunFrom(cfg, from, r')
  {
    r' := Run(r.states + [Apply(cfg, r.states[|r.steps|], step)], r.steps + [step]);
  }

  lemma Join(cfg: Config, from: State, first: Run, second: Run) returns (r: Run)
    requires RunFrom(cfg, from, first) && RunFrom(cfg, first.states[|first.steps|], second)
    ensures r == Run(first.states + second.states[1..], first.steps + second.steps)
    ensures RunFrom(cfg, from, r) && r.states[|r.steps|] == second.states[|second.steps|]
  {
    r := Run(first.states + second.states[1..], first.steps + second.steps);
    var n := |first.steps|;
    forall i | 0 <= i < |r.steps|
      ensures Enabled(cfg, r.states[i], r.steps[i]) && r.states[i + 1] == Apply(cfg, r.states[i], r.steps[i])
    {
      if i >= n {
        assert r.steps[i] == second.steps[i - n] && r.states[i] == second.states[i - n];
        assert r.states[i + 1] == second.states[i - n + 1];
      } else {
        assert r.steps[i] == first.steps[i] && r.states[i] == first.states[i] && r.states[i + 1] == first.states[i + 1];
      }
    }
  }

  // ---------------------------------------------------------------- the steps the theorems count

  /** `step` is a call of an attempt on event `id`. */
  predicate ActsFor(s: State, step: Step, id: string) {
    step.Act? && step.a < |s.attempts| && s.attempts[step.a].event.eventId == id
  }

  predicate PipelineSucceeds(cfg: Config, s: State, step: Step, id: string) {
    ActsFor(s, step, id) && step.call.Pipeline? && Accepts(cfg, s.attempts[step.a].event)
  }

  predicate PipelineFails(cfg: Config, s: State, step: Step, id: string) {
    ActsFor(s, step, id) && step.call.Pipeline? && !Accepts(cfg, s.attempts[step.a].event)
  }

  /** An attempt passes the claim for event `id` and goes on to its pipeline. */
  predicate Starts(cfg: Config, s: State, step: Step, id: string) {
    ActsFor(s, step, id) && step.call.Claim? && !(step.call.outcome.Success? && LockLive(cfg, s, id))
  }

  predicate Completes(s: State, step: Step, id: string) {
    ActsFor(s, step, id) && step.call.MarkDone?
  }
}
