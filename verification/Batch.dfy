/**
  One worker processing one batch: however the goroutines of the parallel path interleave, they
  leave the stores as the one-at-a-time loop does.
*/
module Batch {
  import opened Models
  import opened Delivery
  import opened AckSafety

  // ---------------------------------------------------------------- the one-at-a-time loop

  /** The call an attempt makes next when every call succeeds. */
  function NextCall(pc: Pc): Call
    requires pc != Finished && pc != Crashed
  {
    match pc
    case AtIsDone => IsDone(false)
    case AtClaim => Claim(Success)
    case AtArchive => Archive(Success)
    case AtPipeline => Pipeline
    case AtRelease => Release(Success)
    case AtMarkDone => MarkDone(Success)
    case AtAck => Ack(Success)
  }

  function Remaining(pc: Pc): nat {
    match pc
    case AtIsDone => 6
    case AtClaim => 5
    case AtArchive => 4
    case AtPipeline => 3
    case AtRelease => 2
    case AtMarkDone => 2
    case AtAck => 1
    case Finished => 0
    case Crashed => 0
  }

  /** processSingleMessageIdempotent on attempt `a`, undisturbed. */
  function RunAlone(cfg: Config, s: State, a: nat): (t: State)
    requires a < |s.attempts|
    ensures |t.attempts| == |s.attempts|
    decreases Remaining(s.attempts[a].pc)
  {
    var pc := s.attempts[a].pc;
    if pc == Finished || pc == Crashed then s else RunAlone(cfg, Apply(cfg, s, Act(a, NextCall(pc))), a)
  }

  function RunEach(cfg: Config, s: State, batch: seq<nat>): (t: State)
    requires forall i :: 0 <= i < |batch| ==> batch[i] < |s.attempts|
    ensures |t.attempts| == |s.attempts|
  {
    if batch == [] then s else RunAlone(cfg, RunEach(cfg, s, batch[..|batch| - 1]), batch[|batch| - 1])
  }

  lemma RunEachOne(cfg: Config, s: State, a: nat)
    requires a < |s.attempts|
    ensures RunEach(cfg, s, [a]) == RunAlone(cfg, s, a)
  {
    assert [a][..0] == [] && RunEach(cfg, s, []) == s;
  }

  /** The loop runs the messages in the order in which they are listed. */
  lemma {:induction false} RunEachInOrder(cfg: Config, s: State, first: seq<nat>, later: seq<nat>)
    requires forall i :: 0 <= i < |first| ==> first[i] < |s.attempts|
    requires forall i :: 0 <= i < |later| ==> later[i] < |s.attempts|
    ensures forall i :: 0 <= i < |first + later| ==> (first + later)[i] < |s.attempts|
    ensures RunEach(cfg, s, first + later) == RunEach(cfg, RunEach(cfg, s, first), later)
  {
    if later == [] {
      assert first + later == first;
    } else {
      var n, all := |later| - 1, first + later;
      RunEachInOrder(cfg, s, first, later[..n]);
      assert all[..|all| - 1] == first + later[..n] && all[|all| - 1] == later[n];
      RunEachNext(cfg, s, all);
      RunEachNext(cfg, RunEach(cfg, s, first), later);
    }
  }

  /** The path of processMessages for concurrency 1; the context is cancelled before message `cancelAt`. */
  method ProcessInOrder(cfg: Config, s: State, batch: seq<nat>, cancelAt: nat) returns (t: State)
    requires forall i :: 0 <= i < |batch| ==> batch[i] < |s.attempts|
    ensures t == RunEach(cfg, s, if cancelAt <= |batch| then batch[..cancelAt] else batch)
  {
    t := s;
    for i := 0 to |batch|
      invariant i <= cancelAt
      invariant t == RunEach(cfg, s, batch[..i])
    {
      if i == cancelAt {
        return;
      }
      assert batch[..i + 1][..i] == batch[..i];
      t := RunAlone(cfg, t, batch[i]);
    }
    assert batch[..|batch|] == batch;
  }

  // ---------------------------------------------------------------- what one attempt sees and leaves

  /** The store entries that belong to one attempt; expiry times are not part of it. */
  datatype Own = Own(lock: bool, done: bool, stored: Option<RawEvent>, pending: Option<nat>, acked: bool)

  function See(s: State, id: string, m: nat): Own {
    Own(id in s.locks, id in s.done, if id in s.archive then Some(s.archive[id]) else None,
        if m in s.pending then Some(s.pending[m]) else None, m in s.acked)
  }

  /** The attempt passes both checks in `s0`. */
  predicate Free(cfg: Config, s0: State, id: string) {
    cfg.store.Absent? || (!DoneLive(cfg, s0, id) && !LockLive(cfg, s0, id))
  }

  function Claimed(cfg: Config, own: Own): Own {
    if cfg.store.Absent? then own else own.(lock := true)
  }

  function Stored(own: Own, event: RawEvent): Own {
    if event.eventId == "" then own else own.(stored := Some(event))
  }

  function Marked(cfg: Config, own: Own): Own {
    if cfg.store.Absent? then own else own.(done := true, lock := !cfg.store.Memory?)
  }

  function Released(cfg: Config, own: Own): Own {
    if cfg.store.Absent? then own else own.(lock := false)
  }

  function Acked(own: Own): Own {
    if own.pending.Some? then own.(pending := None, acked := true) else own
  }

  /** What an attempt leaves behind, read off the state the batch started in. */
  function Left(cfg: Config, s0: State, event: RawEvent, m: nat): Own {
    var own := See(s0, event.eventId, m);
    if Free(cfg, s0, event.eventId) then
      var stored := Stored(Claimed(cfg, own), event);
      if Accepts(cfg, event) then Acked(Marked(cfg, stored)) else Released(cfg, stored)
    else if DoneLive(cfg, s0, event.eventId) then Acked(own)
    else own
  }

  predicate SameExpiry(s0: State, s: State, id: string) {
    && (id in s0.done && id in s.done ==> s0.done[id] == s.done[id])
    && (id in s0.locks && id in s.locks ==> s0.locks[id] == s.locks[id])
  }

  /** Where attempt `att` stands in `s`, its own entries are as its calls so far have made them. */
  ghost predicate OnTrack(cfg: Config, s0: State, s: State, att: Attempt) {
    var event, id := att.event, att.event.eventId;
    var own, seen := See(s0, id, att.msg), See(s, id, att.msg);
    match att.pc
    case AtIsDone => !cfg.store.Absent? && seen == own && SameExpiry(s0, s, id)
    case AtClaim => !cfg.store.Absent? && !DoneLive(cfg, s0, id) && seen == own && SameExpiry(s0, s, id)
    case AtArchive => Free(cfg, s0, id) && seen == Claimed(cfg, own)
    case AtPipeline => Free(cfg, s0, id) && seen == Stored(Claimed(cfg, own), event)
    case AtRelease => !cfg.store.Absent? && Free(cfg, s0, id) && !Accepts(cfg, event)
                      && seen == Stored(Claimed(cfg, own), event)
    case AtMarkDone => !cfg.store.Absent? && Free(cfg, s0, id) && Accepts(cfg, event)
                       && seen == Stored(Claimed(cfg, own), event)
    case AtAck => Acked(seen) == Left(cfg, s0, event, att.msg)
    case Finished => seen == Left(cfg, s0, event, att.msg)
    case Crashed => false
  }

  // ---------------------------------------------------------------- batches

  /** A batch as processMessages receives it: fresh attempts on events with pairwise distinct IDs. */
  ghost predicate Starting(cfg: Config, s0: State, batch: set<nat>) {
    && WellFormed(s0)
    && (forall a :: a in batch ==>
                      a < |s0.attempts| && s0.attempts[a].pc == if cfg.store.Absent? then AtArchive else AtIsDone)
    && (forall a, b :: a in batch && b in batch && a != b ==>
                         s0.attempts[a].event.eventId != s0.attempts[b].event.eventId)
  }

  /** No lock or marker that is live in `s0` expires by time `now`. */
  ghost predicate NoExpiry(cfg: Config, s0: State, now: nat) {
    cfg.store.Redis? ==>
      && (forall id :: id in s0.done && s0.now <= s0.done[id] ==> now <= s0.done[id])
      && (forall id :: id in s0.locks && s0.now <= s0.locks[id] ==> now <= s0.locks[id])
  }

  /** Some attempt of the batch makes its next call, successfully; or time passes. */
  predicate BatchStep(s: State, batch: set<nat>, step: Step) {
    || step.Tick?
    || (step.Act? && step.a in batch && step.a < |s.attempts| && s.attempts[step.a].pc != Finished
        && s.attempts[step.a].pc != Crashed
        && step.call == NextCall(s.attempts[step.a].pc))
  }

  ghost predicate Concerns(s0: State, batch: set<nat>, id: string) {
    exists a :: a in batch && a < |s0.attempts| && s0.attempts[a].event.eventId == id
  }

  ghost predicate Carries(s0: State, batch: set<nat>, m: nat) {
    exists a :: a in batch && a < |s0.attempts| && s0.attempts[a].msg == m
  }

  predicate SameKeys(s0: State, s: State, id: string) {
    && (id in s.locks <==> id in s0.locks) && (id in s.done <==> id in s0.done)
    && (id in s.archive <==> id in s0.archive) && (id in s.archive ==> s.archive[id] == s0.archive[id])
  }

  predicate SameEntry(s0: State, s: State, m: nat) {
    && (m in s.acked <==> m in s0.acked)
    && (m in s.pending <==> m in s0.pending) && (m in s.pending ==> s.pending[m] == s0.pending[m])
  }

  /** Every attempt of the batch is on track, and nothing else has changed. */
  ghost predicate BatchInv(cfg: Config, s0: State, s: State, batch: set<nat>) {
    && |s.attempts| == |s0.attempts| && s0.now <= s.now
    && (forall a :: a in batch && a < |s0.attempts| ==>
                      s.attempts[a].event == s0.attempts[a].event && s.attempts[a].msg == s0.attempts[a].msg)
    && (forall a :: a in batch && a < |s0.attempts| ==> OnTrack(cfg, s0, s, s.attempts[a]))
    && (forall id :: !Concerns(s0, batch, id) ==> SameKeys(s0, s, id))
    && (forall m :: !Carries(s0, batch, m) ==> SameEntry(s0, s, m))
  }

  lemma LivenessKept(cfg: Config, s0: State, s: State, id: string)
    requires s0.now <= s.now && NoExpiry(cfg, s0, s.now) && SameKeys(s0, s, id) && SameExpiry(s0, s, id)
    ensures DoneLive(cfg, s, id) == DoneLive(cfg, s0, id) && LockLive(cfg, s, id) == LockLive(cfg, s0, id)
  {
  }

  /** A call touches only the keys of its own event and its own entry. */
  lemma CallIsLocal(cfg: Config, s: State, a: nat, call: Call)
    requires Enabled(cfg, s, Act(a, call))
    ensures var t := Apply(cfg, s, Act(a, call));
            && (forall id :: id != s.attempts[a].event.eventId ==> SameKeys(s, t, id) && SameExpiry(s, t, id))
            && (forall m :: m != s.attempts[a].msg ==> SameEntry(s, t, m))
  {
  }

  ghost predicate StaysOnTrack(cfg: Config, s0: State, s: State, a: nat)
    requires a < |s.attempts| && s.attempts[a].pc != Finished && s.attempts[a].pc != Crashed
  {
    var step := Act(a, NextCall(s.attempts[a].pc));
    Enabled(cfg, s, step) && OnTrack(cfg, s0, Apply(cfg, s, step), Apply(cfg, s, step).attempts[a])
  }

  lemma IsDoneStaysOnTrack(cfg: Config, s0: State, s: State, a: nat)
    requires s0.now <= s.now && NoExpiry(cfg, s0, s.now)
    requires a < |s.attempts| && OnTrack(cfg, s0, s, s.attempts[a]) && s.attempts[a].pc == AtIsDone
    ensures StaysOnTrack(cfg, s0, s, a)
  {
    LivenessKept(cfg, s0, s, s.attempts[a].event.eventId);
  }

  lemma ClaimStaysOnTrack(cfg: Config, s0: State, s: State, a: nat)
    requires s0.now <= s.now && NoExpiry(cfg, s0, s.now)
    requires a < |s.attempts| && OnTrack(cfg, s0, s, s.attempts[a]) && s.attempts[a].pc == AtClaim
    ensures StaysOnTrack(cfg, s0, s, a)
  {
    var att, t := s.attempts[a], Apply(cfg, s, Act(a, Claim(Success)));
    var id := att.event.eventId;
    LivenessKept(cfg, s0, s, id);
    if LockLive(cfg, s, id) {
      assert t.attempts[a] == att.(pc := Finished);
      assert See(t, id, att.msg) == See(s, id, att.msg);
    } else {
      assert t.attempts[a] == att.(pc := AtArchive, claimedAt := s.now);
      assert See(t, id, att.msg) == Claimed(cfg, See(s, id, att.msg));
    }
  }

  lemma ArchiveStaysOnTrack(cfg: Config, s0: State, s: State, a: nat)
    requires a < |s.attempts| && OnTrack(cfg, s0, s, s.attempts[a]) && s.attempts[a].pc == AtArchive
    ensures StaysOnTrack(cfg, s0, s, a)
  {
    var att, t := s.attempts[a], Apply(cfg, s, Act(a, Archive(Success)));
    assert See(t, att.event.eventId, att.msg) == Stored(See(s, att.event.eventId, att.msg), att.event);
  }

  lemma PipelineStaysOnTrack(cfg: Config, s0: State, s: State, a: nat)
    requires a < |s.attempts| && OnTrack(cfg, s0, s, s.attempts[a]) && s.attempts[a].pc == AtPipeline
    ensures StaysOnTrack(cfg, s0, s, a)
  {
  }

  lemma EndStaysOnTrack(cfg: Config, s0: State, s: State, a: nat)
    requires a < |s.attempts| && OnTrack(cfg, s0, s, s.attempts[a])
    requires s.attempts[a].pc == AtRelease || s.attempts[a].pc == AtMarkDone || s.attempts[a].pc == AtAck
    ensures StaysOnTrack(cfg, s0, s, a)
  {
  }

  lemma CallStaysOnTrack(cfg: Config, s0: State, s: State, a: nat)
    requires s0.now <= s.now && NoExpiry(cfg, s0, s.now)
    requires a < |s.attempts| && OnTrack(cfg, s0, s, s.attempts[a]) && s.attempts[a].pc != Finished
    ensures StaysOnTrack(cfg, s0, s, a)
  {
    match s.attempts[a].pc {
      case AtIsDone => IsDoneStaysOnTrack(cfg, s0, s, a);
      case AtClaim => ClaimStaysOnTrack(cfg, s0, s, a);
      case AtArchive => ArchiveStaysOnTrack(cfg, s0, s, a);
      case AtPipeline => PipelineStaysOnTrack(cfg, s0, s, a);
      case AtRelease => EndStaysOnTrack(cfg, s0, s, a);
      case AtMarkDone => EndStaysOnTrack(cfg, s0, s, a);
      case AtAck => EndStaysOnTrack(cfg, s0, s, a);
    }
  }

  /** An attempt whose keys and entry are as they were is as much on track as it was. */
  lemma OthersStayOnTrack(cfg: Config, s0: State, s: State, t: State, att: Attempt)
    requires OnTrack(cfg, s0, s, att)
    requires SameKeys(s, t, att.event.eventId) && SameExpiry(s, t, att.event.eventId) && SameEntry(s, t, att.msg)
    ensures OnTrack(cfg, s0, t, att)
  {
    assert See(s, att.event.eventId, att.msg) == See(t, att.event.eventId, att.msg);
  }

  lemma DistinctEntries(cfg: Config, s0: State, batch: set<nat>, a: nat, b: nat)
    requires Starting(cfg, s0, batch) && a in batch && b in batch && a != b
    ensures s0.attempts[a].event.eventId != s0.attempts[b].event.eventId && s0.attempts[a].msg != s0.attempts[b].msg
  {
    assert ParseXMessage(s0.stream[s0.attempts[a].msg]) == Some(s0.attempts[a].event);
  }

  lemma BatchInvAct(cfg: Config, s0: State, s: State, batch: set<nat>, step: Step)
    requires Starting(cfg, s0, batch) && BatchInv(cfg, s0, s, batch) && NoExpiry(cfg, s0, s.now)
    requires step.Act? && BatchStep(s, batch, step)
    ensures Enabled(cfg, s, step) && BatchInv(cfg, s0, Apply(cfg, s, step), batch)
  {
    var a := step.a;
    CallStaysOnTrack(cfg, s0, s, a);
    var t := Apply(cfg, s, step);
    CallIsLocal(cfg, s, a, step.call);
    forall b | b in batch && b < |s0.attempts| ensures OnTrack(cfg, s0, t, t.attempts[b]) {
      if b != a {
        DistinctEntries(cfg, s0, batch, a, b);
        OthersStayOnTrack(cfg, s0, s, t, s.attempts[b]);
      }
    }
    forall id | !Concerns(s0, batch, id) ensures SameKeys(s0, t, id) {
      assert s0.attempts[a].event.eventId != id;
      assert SameKeys(s, t, id) && SameKeys(s0, s, id);
    }
    forall m | !Carries(s0, batch, m) ensures SameEntry(s0, t, m) {
      assert s0.attempts[a].msg != m;
      assert SameEntry(s, t, m) && SameEntry(s0, s, m);
    }
  }

  lemma BatchInvStart(cfg: Config, s0: State, batch: set<nat>)
    requires Starting(cfg, s0, batch)
    ensures BatchInv(cfg, s0, s0, batch)
  {
  }

  // ---------------------------------------------------------------- every interleaving

  /** A schedule of the batch: its attempts and the clock take steps, in any order, without errors or expiry. */
  ghost predicate Schedule(cfg: Config, s0: State, batch: set<nat>, r: Run) {
    && RunFrom(cfg, s0, r)
    && (forall i :: 0 <= i < |r.steps| ==> BatchStep(r.states[i], batch, r.steps[i]))
    && (forall i :: 0 <= i < |r.states| ==> NoExpiry(cfg, s0, r.states[i].now))
  }

  lemma BatchInvTick(cfg: Config, s0: State, s: State, batch: set<nat>, step: Step)
    requires BatchInv(cfg, s0, s, batch) && step.Tick?
    ensures BatchInv(cfg, s0, Apply(cfg, s, step), batch)
  {
    var t := Apply(cfg, s, step);
    forall a | a in batch && a < |s0.attempts| ensures OnTrack(cfg, s0, t, t.attempts[a]) {
      OthersStayOnTrack(cfg, s0, s, t, s.attempts[a]);
    }
  }

  lemma BatchInvStep(cfg: Config, s0: State, s: State, batch: set<nat>, step: Step)
    requires Starting(cfg, s0, batch) && BatchInv(cfg, s0, s, batch) && NoExpiry(cfg, s0, s.now)
    requires BatchStep(s, batch, step) && Enabled(cfg, s, step)
    ensures BatchInv(cfg, s0, Apply(cfg, s, step), batch)
  {
    if step.Act? {
      BatchInvAct(cfg, s0, s, batch, step);
    } else {
      BatchInvTick(cfg, s0, s, batch, step);
    }
  }

  lemma {:induction false} BatchInvRun(cfg: Config, s0: State, batch: set<nat>, r: Run, k: nat)
    requires Starting(cfg, s0, batch) && Schedule(cfg, s0, batch, r) && k < |r.states|
    ensures BatchInv(cfg, s0, r.states[k], batch)
  {
    if k == 0 {
      BatchInvStart(cfg, s0, batch);
    } else {
      BatchInvRun(cfg, s0, batch, r, k - 1);
      BatchInvStep(cfg, s0, r.states[k - 1], batch, r.steps[k - 1]);
    }
  }

  /** One undisturbed call keeps the invariant and the clock, and moves no other attempt. */
  lemma NextCallInv(cfg: Config, s0: State, s: State, batch: set<nat>, a: nat)
    requires Starting(cfg, s0, batch) && BatchInv(cfg, s0, s, batch) && NoExpiry(cfg, s0, s.now) && a in batch
    requires s.attempts[a].pc != Finished
    ensures s.attempts[a].pc != Crashed && Enabled(cfg, s, Act(a, NextCall(s.attempts[a].pc)))
    ensures var t := Apply(cfg, s, Act(a, NextCall(s.attempts[a].pc)));
            && BatchInv(cfg, s0, t, batch) && t.now == s.now && |t.attempts| == |s.attempts|
            && Remaining(t.attempts[a].pc) < Remaining(s.attempts[a].pc)
            && RunAlone(cfg, s, a) == RunAlone(cfg, t, a)
            && forall b :: 0 <= b < |s.attempts| && b != a ==> t.attempts[b] == s.attempts[b]
  {
    assert OnTrack(cfg, s0, s, s.attempts[a]);
    BatchInvAct(cfg, s0, s, batch, Act(a, NextCall(s.attempts[a].pc)));
  }

  /** The one-at-a-time loop is covered by the same invariant, and finishes each attempt it runs. */
  lemma {:induction false} RunAloneInv(cfg: Config, s0: State, s: State, batch: set<nat>, a: nat)
    requires Starting(cfg, s0, batch) && BatchInv(cfg, s0, s, batch) && NoExpiry(cfg, s0, s.now) && a in batch
    ensures BatchInv(cfg, s0, RunAlone(cfg, s, a), batch)
    ensures RunAlone(cfg, s, a).now == s.now && RunAlone(cfg, s, a).attempts[a].pc == Finished
    ensures forall b :: 0 <= b < |s.attempts| && b != a ==> RunAlone(cfg, s, a).attempts[b] == s.attempts[b]
    decreases Remaining(s.attempts[a].pc)
  {
    if s.attempts[a].pc != Finished {
      NextCallInv(cfg, s0, s, batch, a);
      RunAloneInv(cfg, s0, Apply(cfg, s, Act(a, NextCall(s.attempts[a].pc))), batch, a);
    }
  }

  /** Every listed attempt has returned. */
  ghost predicate Returned(s: State, order: seq<nat>) {
    forall i :: 0 <= i < |order| ==> order[i] < |s.attempts| && s.attempts[order[i]].pc == Finished
  }

  /** The loop has run the attempts listed and is on track with the whole batch. */
  ghost predicate Looped(cfg: Config, s0: State, s: State, batch: set<nat>, order: seq<nat>) {
    BatchInv(cfg, s0, s, batch) && s.now == s0.now && Returned(s, order)
  }

  lemma LoopNext(cfg: Config, s0: State, s: State, batch: set<nat>, before: seq<nat>, a: nat, t: State)
    requires Starting(cfg, s0, batch) && NoExpiry(cfg, s0, s0.now) && Looped(cfg, s0, s, batch, before) && a in batch
    requires a < |s.attempts| && t == RunAlone(cfg, s, a)
    ensures Looped(cfg, s0, t, batch, before + [a])
  {
    RunAloneInv(cfg, s0, s, batch, a);
  }

  lemma RunEachNext(cfg: Config, s: State, order: seq<nat>)
    requires order != [] && forall i :: 0 <= i < |order| ==> order[i] < |s.attempts|
    ensures order[..|order| - 1] + [order[|order| - 1]] == order
    ensures RunEach(cfg, s, order) == RunAlone(cfg, RunEach(cfg, s, order[..|order| - 1]), order[|order| - 1])
  {
  }

  lemma {:induction false} RunEachInv(cfg: Config, s0: State, batch: set<nat>, order: seq<nat>)
    requires Starting(cfg, s0, batch) && NoExpiry(cfg, s0, s0.now)
    requires forall i :: 0 <= i < |order| ==> order[i] in batch
    ensures Looped(cfg, s0, RunEach(cfg, s0, order), batch, order)
  {
    if order == [] {
      BatchInvStart(cfg, s0, batch);
    } else {
      var rest, last := order[..|order| - 1], order[|order| - 1];
      RunEachInv(cfg, s0, batch, rest);
      RunEachNext(cfg, s0, order);
      LoopNext(cfg, s0, RunEach(cfg, s0, rest), batch, rest, last, RunEach(cfg, s0, order));
    }
  }

  lemma {:induction false} RunAloneMovesOnly(cfg: Config, s: State, a: nat, b: nat)
    requires a < |s.attempts| && b < |s.attempts| && b != a
    ensures RunAlone(cfg, s, a).attempts[b] == s.attempts[b]
    decreases Remaining(s.attempts[a].pc)
  {
    var pc := s.attempts[a].pc;
    if pc != Finished && pc != Crashed {
      RunAloneMovesOnly(cfg, Apply(cfg, s, Act(a, NextCall(pc))), a, b);
    }
  }

  /** The loop moves no attempt that it does not run. */
  lemma {:induction false} RunEachMovesOnly(cfg: Config, s: State, order: seq<nat>, b: nat)
    requires (forall i :: 0 <= i < |order| ==> order[i] < |s.attempts|) && b < |s.attempts| && b !in order
    ensures RunEach(cfg, s, order).attempts[b] == s.attempts[b]
  {
    if order != [] {
      var rest := order[..|order| - 1];
      RunEachMovesOnly(cfg, s, rest, b);
      RunAloneMovesOnly(cfg, RunEach(cfg, s, rest), order[|order| - 1], b);
    }
  }

  /** What the stores hold, expiry times aside. */
  datatype View = View(acked: set<nat>, pending: map<nat, nat>, done: set<string>, locks: set<string>,
                       archive: map<string, RawEvent>)

  function ViewOf(s: State): View {
    View(s.acked, s.pending, s.done.Keys, s.locks.Keys, s.archive)
  }

  ghost predicate AllFinished(s: State, batch: set<nat>) {
    forall a :: a in batch ==> a < |s.attempts| && s.attempts[a].pc == Finished
  }

  /** In both states every attempt of the batch stands at the same point, and none is about to acknowledge. */
  ghost predicate Alike(t: State, u: State, batch: set<nat>) {
    forall a :: a in batch ==>
                  a < |t.attempts| && a < |u.attempts|
                  && t.attempts[a].pc == u.attempts[a].pc && t.attempts[a].pc != AtAck
  }

  /** Where the attempts stand, and the starting state, determine what each sees. */
  lemma SameSight(cfg: Config, s0: State, batch: set<nat>, t: State, u: State, a: nat)
    requires BatchInv(cfg, s0, t, batch) && BatchInv(cfg, s0, u, batch) && Alike(t, u, batch)
    requires a in batch && a < |s0.attempts|
    ensures var id, m := s0.attempts[a].event.eventId, s0.attempts[a].msg; See(t, id, m) == See(u, id, m)
  {
    assert OnTrack(cfg, s0, t, t.attempts[a]) && OnTrack(cfg, s0, u, u.attempts[a]);
  }

  lemma FinalKeys(cfg: Config, s0: State, batch: set<nat>, t: State, u: State, id: string)
    requires BatchInv(cfg, s0, t, batch) && BatchInv(cfg, s0, u, batch) && Alike(t, u, batch)
    ensures SameKeys(t, u, id)
  {
    if Concerns(s0, batch, id) {
      var a :| a in batch && a < |s0.attempts| && s0.attempts[a].event.eventId == id;
      SameSight(cfg, s0, batch, t, u, a);
    } else {
      assert SameKeys(s0, t, id) && SameKeys(s0, u, id);
    }
  }

  lemma FinalEntry(cfg: Config, s0: State, batch: set<nat>, t: State, u: State, m: nat)
    requires BatchInv(cfg, s0, t, batch) && BatchInv(cfg, s0, u, batch) && Alike(t, u, batch)
    ensures SameEntry(t, u, m)
  {
    if Carries(s0, batch, m) {
      var a :| a in batch && a < |s0.attempts| && s0.attempts[a].msg == m;
      SameSight(cfg, s0, batch, t, u, a);
    } else {
      assert SameEntry(s0, t, m) && SameEntry(s0, u, m);
    }
  }

  lemma FinalViewsAgree(cfg: Config, s0: State, batch: set<nat>, t: State, u: State)
    requires BatchInv(cfg, s0, t, batch) && BatchInv(cfg, s0, u, batch) && Alike(t, u, batch)
    ensures ViewOf(t) == ViewOf(u)
  {
    forall id ensures SameKeys(t, u, id) {
      FinalKeys(cfg, s0, batch, t, u, id);
    }
    assert forall id :: (id in t.done <==> id in u.done) && (id in t.locks <==> id in u.locks) by {
      forall id ensures (id in t.done <==> id in u.done) && (id in t.locks <==> id in u.locks) {
        assert SameKeys(t, u, id);
      }
    }
    assert t.done.Keys == u.done.Keys && t.locks.Keys == u.locks.Keys;
    forall id ensures (id in t.archive <==> id in u.archive) && (id in t.archive ==> t.archive[id] == u.archive[id]) {
      assert SameKeys(t, u, id);
    }
    assert t.archive == u.archive;
    forall m
      ensures (m in t.acked <==> m in u.acked) && (m in t.pending <==> m in u.pending)
      ensures m in t.pending ==> t.pending[m] == u.pending[m]
    {
      FinalEntry(cfg, s0, batch, t, u, m);
    }
    assert t.acked == u.acked && t.pending == u.pending;
  }

  /**
    Parallel refines sequential: every complete schedule of the batch's goroutines ends with the
    acknowledgements, pending list, done markers, locks and archive of the one-at-a-time loop.
  */
  lemma ParallelRefinesSequential(cfg: Config, s0: State, order: seq<nat>, batch: set<nat>, r: Run)
    requires Starting(cfg, s0, batch) && Schedule(cfg, s0, batch, r)
    requires forall a :: a in batch <==> a in order
    requires AllFinished(r.states[|r.steps|], batch)
    ensures forall i :: 0 <= i < |order| ==> order[i] < |s0.attempts|
    ensures ViewOf(r.states[|r.steps|]) == ViewOf(RunEach(cfg, s0, order))
  {
    assert forall i :: 0 <= i < |order| ==> order[i] in order;
    BatchInvRun(cfg, s0, batch, r, |r.steps|);
    RunEachInv(cfg, s0, batch, order);
    forall a | a in batch ensures RunEach(cfg, s0, order).attempts[a].pc == Finished {
      var i :| 0 <= i < |order| && order[i] == a;
    }
    FinalViewsAgree(cfg, s0, batch, r.states[|r.steps|], RunEach(cfg, s0, order));
  }

  /** And what it is: each event's outcome follows from the state the batch started in. */
  lemma OutcomeOfBatch(cfg: Config, s0: State, batch: set<nat>, r: Run, a: nat)
    requires Starting(cfg, s0, batch) && Schedule(cfg, s0, batch, r) && AllFinished(r.states[|r.steps|], batch)
             && a in batch
    ensures var event, m := s0.attempts[a].event, s0.attempts[a].msg;
            See(r.states[|r.steps|], event.eventId, m) == Left(cfg, s0, event, m)
  {
    BatchInvRun(cfg, s0, batch, r, |r.steps|);
    assert OnTrack(cfg, s0, r.states[|r.steps|], r.states[|r.steps|].attempts[a]);
  }
}
