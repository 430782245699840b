/**
  The raw store over whole runs: what is in it, which acknowledged events are stored as they were
  published, and the runs in which an event is acknowledged and not stored.
*/
module Archive {
  import opened Models
  import opened Delivery
  import opened AckSafety

  // ---------------------------------------------------------------- what is stored

  /** A Put for event `id` that took effect, whether or not the worker saw a reply. */
  predicate PutApplied(s: State, step: Step, id: string) {
    ActsFor(s, step, id) && step.call.Archive? && step.call.outcome.Applied()
  }

  ghost predicate SomePut(r: Run, id: string, k: nat)
    requires k < |r.states| == |r.steps| + 1
  {
    exists i :: 0 <= i < k && PutApplied(r.states[i], r.steps[i], id)
  }

  /** Step i is the last Put for `id` that took effect in the first k steps. */
  ghost predicate LastPut(r: Run, id: string, i: nat, k: nat)
    requires k < |r.states| == |r.steps| + 1
  {
    && i < k && PutApplied(r.states[i], r.steps[i], id)
    && forall n :: i < n < k ==> !PutApplied(r.states[n], r.steps[n], id)
  }

  lemma ArchiveStep(cfg: Config, s: State, step: Step, id: string)
    requires Enabled(cfg, s, step)
    ensures var t := Apply(cfg, s, step);
            if PutApplied(s, step, id) && id != "" then id in t.archive && t.archive[id] == s.attempts[step.a].event
            else (id in t.archive <==> id in s.archive) && (id in s.archive ==> t.archive[id] == s.archive[id])
  {
  }

  lemma ArchiveStepTo(cfg: Config, s: State, step: Step, t: State, id: string)
    requires Enabled(cfg, s, step) && t == Apply(cfg, s, step)
    ensures if PutApplied(s, step, id) && id != "" then id in t.archive && t.archive[id] == s.attempts[step.a].event
            else (id in t.archive <==> id in s.archive) && (id in s.archive ==> t.archive[id] == s.archive[id])
  {
    ArchiveStep(cfg, s, step, id);
  }

  /** Step n leaves stored under `id` what it puts, or else what was there. */
  ghost predicate StoresAt(r: Run, id: string, n: nat)
    requires n < |r.steps| && |r.states| == |r.steps| + 1
  {
    var s, t := r.states[n], r.states[n + 1];
    if PutApplied(s, r.steps[n], id) then id in t.archive && t.archive[id] == s.attempts[r.steps[n].a].event
    else (id in t.archive <==> id in s.archive) && (id in s.archive ==> t.archive[id] == s.archive[id])
  }

  lemma StoresEverywhere(cfg: Config, r: Run, id: string)
    requires IsRun(cfg, r) && id != ""
    ensures forall n :: 0 <= n < |r.steps| ==> StoresAt(r, id, n)
  {
    forall n | 0 <= n < |r.steps| ensures StoresAt(r, id, n) {
      ArchiveStepTo(cfg, r.states[n], r.steps[n], r.states[n + 1], id);
    }
  }

  lemma {:induction false} LastPutBefore(r: Run, id: string, k: nat) returns (i: nat)
    requires k < |r.states| == |r.steps| + 1 && id !in r.states[0].archive && id in r.states[k].archive
    requires forall n :: 0 <= n < |r.steps| ==> StoresAt(r, id, n)
    ensures LastPut(r, id, i, k) && r.states[k].archive[id] == r.states[i].attempts[r.steps[i].a].event
  {
    assert StoresAt(r, id, k - 1);
    if PutApplied(r.states[k - 1], r.steps[k - 1], id) {
      i := k - 1;
    } else {
      i := LastPutBefore(r, id, k - 1);
    }
  }

  lemma {:induction false} PutStays(r: Run, id: string, i: nat, k: nat)
    requires i < k < |r.states| == |r.steps| + 1 && PutApplied(r.states[i], r.steps[i], id)
    requires forall n :: 0 <= n < |r.steps| ==> StoresAt(r, id, n)
    ensures id in r.states[k].archive
    decreases k
  {
    assert StoresAt(r, id, k - 1);
    if i < k - 1 {
      PutStays(r, id, i, k - 1);
    }
  }

  lemma {:induction false} NothingWithoutId(cfg: Config, r: Run, k: nat)
    requires IsRun(cfg, r) && k < |r.states|
    ensures "" !in r.states[k].archive
  {
    if k > 0 {
      NothingWithoutId(cfg, r, k - 1);
      ArchiveStepTo(cfg, r.states[k - 1], r.steps[k - 1], r.states[k], "");
    }
  }

  /** What is stored under an ID is what the last Put for it carried. */
  lemma StoredIsLastPut(cfg: Config, r: Run, k: nat, id: string) returns (i: nat)
    requires IsRun(cfg, r) && k < |r.states| && id in r.states[k].archive
    ensures id != "" && LastPut(r, id, i, k) && r.states[k].archive[id] == r.states[i].attempts[r.steps[i].a].event
  {
    NothingWithoutId(cfg, r, k);
    StoresEverywhere(cfg, r, id);
    i := LastPutBefore(r, id, k);
  }

  lemma PutIsStored(cfg: Config, r: Run, k: nat, id: string, i: nat)
    requires IsRun(cfg, r) && i < k < |r.states| && id != "" && PutApplied(r.states[i], r.steps[i], id)
    ensures id in r.states[k].archive
  {
    StoresEverywhere(cfg, r, id);
    PutStays(r, id, i, k);
  }

  /** In every run an ID is in the store if and only if it is not empty and some Put for it took effect. */
  lemma StoredExactly(cfg: Config, r: Run, k: nat, id: string)
    requires IsRun(cfg, r) && k < |r.states|
    ensures id in r.states[k].archive <==> id != "" && SomePut(r, id, k)
  {
    if id in r.states[k].archive {
      var i := StoredIsLastPut(cfg, r, k, id);
    }
    if id != "" && SomePut(r, id, k) {
      var i :| 0 <= i < k && PutApplied(r.states[i], r.steps[i], id);
      PutIsStored(cfg, r, k, id, i);
    }
  }

  // ---------------------------------------------------------------- stored as published

  /** The raw store holds the event of entry `m` as it was published. */
  predicate StoredAsPublished(s: State, m: nat)
    requires m < |s.stream| && s.stream[m].Decodable?
  {
    s.stream[m].event.eventId in s.archive && s.archive[s.stream[m].event.eventId] == s.stream[m].event
  }

  lemma PutIsPublished(cfg: Config, r: Run, i: nat, k: nat) returns (n: nat)
    requires IsRun(cfg, r) && i < |r.steps| && i <= k < |r.states| && r.steps[i].Act?
    ensures n < |r.states[k].stream| && r.steps[i].a < |r.states[i].attempts|
    ensures r.states[k].stream[n] == Decodable(r.states[i].attempts[r.steps[i].a].event)
  {
    assert Enabled(cfg, r.states[i], r.steps[i]);
    WellFormedRun(cfg, r, i);
    ExtendsRun(cfg, Init, r, i, k);
    n := r.states[i].attempts[r.steps[i].a].msg;
    assert r.states[i].stream[n] == r.states[k].stream[n];
  }

  /** The exact condition, event IDs distinct or not: the last Put for the ID carried an event equal to the entry's. */
  lemma StoredAsPublishedExactly(cfg: Config, r: Run, k: nat, m: nat)
    requires IsRun(cfg, r) && k < |r.states| && m < |r.states[k].stream| && r.states[k].stream[m].Decodable?
    ensures var event := r.states[k].stream[m].event;
            StoredAsPublished(r.states[k], m) <==>
            && event.eventId != ""
            && exists i: nat :: LastPut(r, event.eventId, i, k) && r.states[i].attempts[r.steps[i].a].event == event
  {
    var event := r.states[k].stream[m].event;
    StoredExactly(cfg, r, k, event.eventId);
    if event.eventId in r.states[k].archive {
      var i := StoredIsLastPut(cfg, r, k, event.eventId);
      forall j: nat | LastPut(r, event.eventId, j, k) ensures j == i {
        assert !(i < j) && !(j < i);
      }
    }
  }

  /** With distinct event IDs it is enough that the event has an ID and any Put for it took effect. */
  lemma ArchivedExactly(cfg: Config, r: Run, k: nat, m: nat)
    requires IsRun(cfg, r) && k < |r.states| && m < |r.states[k].stream| && r.states[k].stream[m].Decodable?
    requires DistinctIds(r.states[k].stream)
    ensures var id := r.states[k].stream[m].event.eventId;
            StoredAsPublished(r.states[k], m) <==> id != "" && SomePut(r, id, k)
  {
    var id := r.states[k].stream[m].event.eventId;
    StoredExactly(cfg, r, k, id);
    if id in r.states[k].archive {
      var i := StoredIsLastPut(cfg, r, k, id);
      var n := PutIsPublished(cfg, r, i, k);
      assert n == m;
    }
  }

  /** Stored values never change, neither by retries nor by anything else. */
  lemma StoredStays(cfg: Config, r: Run, k: nat, later: nat, id: string)
    requires IsRun(cfg, r) && k <= later < |r.states| && DistinctIds(r.states[later].stream)
    requires id in r.states[k].archive
    ensures id in r.states[later].archive && r.states[later].archive[id] == r.states[k].archive[id]
  {
    var i := StoredIsLastPut(cfg, r, k, id);
    var n := PutIsPublished(cfg, r, i, later);
    StoredExactly(cfg, r, later, id);
    assert SomePut(r, id, later);
    var j := StoredIsLastPut(cfg, r, later, id);
    var m := PutIsPublished(cfg, r, j, later);
    assert n == m;
  }

  // ---------------------------------------------------------------- acknowledged events

  /** Every Put for `id` in the first k steps took effect; what becomes of other events does not matter. */
  ghost predicate PutsTakeEffect(r: Run, id: string, k: nat)
    requires k < |r.states| == |r.steps| + 1
  {
    forall i :: 0 <= i < k && ActsFor(r.states[i], r.steps[i], id) && r.steps[i].call.Archive? ==>
                  r.steps[i].call.outcome.Applied()
  }

  /** No attempt reaches its pipeline without having called Put. */
  lemma {:induction false} PipelineFollowsPut(cfg: Config, r: Run, k: nat, a: nat) returns (i: nat)
    requires IsRun(cfg, r) && k < |r.states| && a < |r.states[k].attempts| && r.states[k].attempts[a].pc == AtPipeline
    ensures i < k && ActsFor(r.states[i], r.steps[i], r.states[k].attempts[a].event.eventId) && r.steps[i].call.Archive?
    ensures r.steps[i].a == a
  {
    var s, step := r.states[k - 1], r.steps[k - 1];
    assert Enabled(cfg, s, step) && r.states[k] == Apply(cfg, s, step);
    if step.Act? && step.a == a {
      i := k - 1;
    } else {
      i := PipelineFollowsPut(cfg, r, k - 1, a);
    }
  }

  lemma AckedFollowsPut(cfg: Config, r: Run, k: nat, m: nat) returns (i: nat)
    requires IsRun(cfg, r) && k < |r.states| && m in r.states[k].acked
    ensures m < |r.states[k].stream| && r.states[k].stream[m].Decodable?
    ensures i < k && ActsFor(r.states[i], r.steps[i], r.states[k].stream[m].event.eventId) && r.steps[i].call.Archive?
  {
    AckOnlyAfterSuccess(cfg, r, k, m);
    var id := r.states[k].stream[m].event.eventId;
    var j :| 0 <= j < k && PipelineSucceeds(cfg, r.states[j], r.steps[j], id);
    assert Enabled(cfg, r.states[j], r.steps[j]);
    i := PipelineFollowsPut(cfg, r, j, r.steps[j].a);
  }

  /**
    An acknowledged event is in the raw store as it was published, at once and ever after, if and
    only if it has an ID and one of its own Puts took effect; and one of its Puts was called.
  */
  lemma AckedIsArchivedExactly(cfg: Config, r: Run, k: nat, m: nat, later: nat)
    requires IsRun(cfg, r) && k <= later < |r.states| && DistinctIds(r.states[later].stream) && m in r.states[k].acked
    ensures m < |r.states[k].stream| && r.states[k].stream[m].Decodable? && r.states[k].stream <= r.states[later].stream
    ensures var id := r.states[k].stream[m].event.eventId;
            && (StoredAsPublished(r.states[k], m) <==> id != "" && SomePut(r, id, k))
            && (StoredAsPublished(r.states[later], m) <==> id != "" && SomePut(r, id, later))
            && (StoredAsPublished(r.states[k], m) ==> StoredAsPublished(r.states[later], m))
            && (id != "" && PutsTakeEffect(r, id, k) ==> StoredAsPublished(r.states[k], m))
  {
    var i := AckedFollowsPut(cfg, r, k, m);
    ExtendsRun(cfg, Init, r, k, later);
    DistinctBefore(r.states[k].stream, r.states[later].stream);
    assert r.states[later].stream[m] == r.states[k].stream[m];
    ArchivedExactly(cfg, r, k, m);
    ArchivedExactly(cfg, r, later, m);
  }

  lemma DistinctBefore(before: seq<Entry>, after: seq<Entry>)
    requires before <= after && DistinctIds(after)
    ensures DistinctIds(before)
  {
    assert forall n :: 0 <= n < |before| ==> before[n] == after[n];
  }

  // ---------------------------------------------------------------- each condition is needed

  /** One attempt on `e` at time 0, lock taken. */
  function Working(cfg: Config, e: RawEvent, pc: Pc, archive: map<string, RawEvent>): State {
    State(0, [Decodable(e)], 1, map[0 := 0], {}, map[e.eventId := cfg.lockTTL], map[e.eventId := 0], map[], archive,
          [Attempt(0, e, pc, 0, 0)])
  }

  function Stored(e: RawEvent, put: Outcome): map<string, RawEvent> {
    if put.Applied() && e.eventId != "" then map[e.eventId := e] else map[]
  }

  /** `e` is done and acknowledged. */
  function Completed(cfg: Config, e: RawEvent, put: Outcome): State {
    Working(cfg, e, Finished, Stored(e, put)).(pending := map[], acked := {0}, done := map[e.eventId := cfg.doneTTL])
  }

  lemma ClaimRun(cfg: Config, e: RawEvent) returns (r: Run)
    requires cfg.store.Redis?
    ensures IsRun(cfg, r) && r.states[|r.steps|] == Working(cfg, e, AtArchive, map[])
    ensures r.steps == [Publish(Decodable(e)), Deliver, Act(0, IsDone(false)), Act(0, Claim(Success))]
  {
    var s1 := Init.(stream := [Decodable(e)]);
    var s2 := s1.(cursor := 1, pending := map[0 := 0], attempts := [Attempt(0, e, AtIsDone, 0, 0)]);
    var s3 := s2.(attempts := [Attempt(0, e, AtClaim, 0, 0)]);
    assert Apply(cfg, s1, Deliver) == s2;
    assert Apply(cfg, s2, Act(0, IsDone(false))) == s3;
    assert Apply(cfg, s3, Act(0, Claim(Success))) == Working(cfg, e, AtArchive, map[]);
    r := Run([Init, s1, s2, s3, Working(cfg, e, AtArchive, map[])],
             [Publish(Decodable(e)), Deliver, Act(0, IsDone(false)), Act(0, Claim(Success))]);
  }

  lemma PutAndPipeline(cfg: Config, e: RawEvent, put: Outcome)
    requires cfg.store.Redis? && Accepts(cfg, e)
    ensures Apply(cfg, Working(cfg, e, AtArchive, map[]), Act(0, Archive(put)))
         == Working(cfg, e, AtPipeline, Stored(e, put))
    ensures Apply(cfg, Working(cfg, e, AtPipeline, Stored(e, put)), Act(0, Pipeline))
         == Working(cfg, e, AtMarkDone, Stored(e, put))
  {
  }

  lemma DoneAndAcked(cfg: Config, e: RawEvent, put: Outcome)
    requires cfg.store.Redis?
    ensures var s := Working(cfg, e, AtMarkDone, Stored(e, put));
            var t := s.(done := map[e.eventId := cfg.doneTTL], attempts := [Attempt(0, e, AtAck, 0, 0)]);
            && Apply(cfg, s, Act(0, MarkDone(Success))) == t
            && Apply(cfg, t, Act(0, Ack(Success))) == Completed(cfg, e, put)
  {
  }

  lemma WorkRun(cfg: Config, e: RawEvent, put: Outcome) returns (r: Run)
    requires cfg.store.Redis? && Accepts(cfg, e)
    ensures RunFrom(cfg, Working(cfg, e, AtArchive, map[]), r) && r.states[|r.steps|] == Completed(cfg, e, put)
    ensures r.steps == [Act(0, Archive(put)), Act(0, Pipeline), Act(0, MarkDone(Success)), Act(0, Ack(Success))]
  {
    var s0, s1 := Working(cfg, e, AtArchive, map[]), Working(cfg, e, AtPipeline, Stored(e, put));
    var s2 := Working(cfg, e, AtMarkDone, Stored(e, put));
    var s3 := s2.(done := map[e.eventId := cfg.doneTTL], attempts := [Attempt(0, e, AtAck, 0, 0)]);
    PutAndPipeline(cfg, e, put);
    DoneAndAcked(cfg, e, put);
    r := Run([s0, s1, s2, s3, Completed(cfg, e, put)],
             [Act(0, Archive(put)), Act(0, Pipeline), Act(0, MarkDone(Success)), Act(0, Ack(Success))]);
  }

  /** However its one Put turns out, the event is marked done and acknowledged. */
  lemma CompletedRun(cfg: Config, e: RawEvent, put: Outcome) returns (r: Run)
    requires cfg.store.Redis? && Accepts(cfg, e)
    ensures IsRun(cfg, r) && r.states[|r.steps|] == Completed(cfg, e, put)
    ensures r.steps == [Publish(Decodable(e)), Deliver, Act(0, IsDone(false)), Act(0, Claim(Success))]
                       + [Act(0, Archive(put)), Act(0, Pipeline), Act(0, MarkDone(Success)), Act(0, Ack(Success))]
  {
    var first := ClaimRun(cfg, e);
    var second := WorkRun(cfg, e, put);
    r := Join(cfg, Init, first, second);
  }

  /**
    A Put that is lost, or refused for want of an ID, is logged and forgotten: the event is marked
    done and acknowledged with nothing in the raw store.
  */
  lemma LostPutIsAcked(cfg: Config, e: RawEvent, put: Outcome) returns (r: Run)
    requires cfg.store.Redis? && Accepts(cfg, e) && (!put.Applied() || e.eventId == "")
    ensures IsRun(cfg, r) && forall i :: 0 <= i < |r.steps| && r.steps[i].Act? && r.steps[i].call.Archive? ==>
                                           r.steps[i].call.outcome == put
    ensures var s := r.states[|r.steps|];
            s.stream == [Decodable(e)] && 0 in s.acked && e.eventId in s.done && s.archive == map[]
  {
    r := CompletedRun(cfg, e, put);
  }

  /** `e` is completed, and another event with its ID is published, delivered and about to be checked. */
  function Second(cfg: Config, e: RawEvent, other: RawEvent, pc: Pc): State {
    Completed(cfg, e, Success).(
    stream := [Decodable(e), Decodable(other)], cursor := 2, pending := map[1 := 0],
    attempts := [Attempt(0, e, Finished, 0, 0), Attempt(1, other, pc, 0, 0)])
  }

  lemma SecondArrives(cfg: Config, e: RawEvent, other: RawEvent)
    ensures var s := Completed(cfg, e, Success).(stream := [Decodable(e), Decodable(other)]);
            && Apply(cfg, Completed(cfg, e, Success), Publish(Decodable(other))) == s
            && (!cfg.store.Absent? ==> Apply(cfg, s, Deliver) == Second(cfg, e, other, AtIsDone))
  {
  }

  lemma SecondIsAcked(cfg: Config, e: RawEvent, other: RawEvent)
    requires e.eventId == other.eventId
    ensures Apply(cfg, Second(cfg, e, other, AtIsDone), Act(1, IsDone(false))) == Second(cfg, e, other, AtAck)
    ensures Apply(cfg, Second(cfg, e, other, AtAck), Act(1, Ack(Success)))
         == Second(cfg, e, other, Finished).(pending := map[], acked := {0, 1})
  {
  }

  lemma SecondRun(cfg: Config, e: RawEvent, other: RawEvent) returns (r: Run)
    requires cfg.store.Redis? && e.eventId == other.eventId
    ensures RunFrom(cfg, Completed(cfg, e, Success), r)
    ensures r.steps == [Publish(Decodable(other)), Deliver, Act(1, IsDone(false)), Act(1, Ack(Success))]
    ensures r.states[4] == Second(cfg, e, other, Finished).(pending := map[], acked := {0, 1})
  {
    var s0 := Completed(cfg, e, Success);
    var s1 := s0.(stream := [Decodable(e), Decodable(other)]);
    var s4 := Second(cfg, e, other, Finished).(pending := map[], acked := {0, 1});
    SecondArrives(cfg, e, other);
    SecondIsAcked(cfg, e, other);
    r := Run([s0, s1, Second(cfg, e, other, AtIsDone), Second(cfg, e, other, AtAck), s4],
             [Publish(Decodable(other)), Deliver, Act(1, IsDone(false)), Act(1, Ack(Success))]);
  }

  /**
    Two events under one ID: the second finds the first's marker and is acknowledged, without error,
    crash or lost call, while the raw store holds the first.
  */
  lemma DuplicateIdIsAckedUnstored(cfg: Config, e: RawEvent, other: RawEvent) returns (r: Run)
    requires cfg.store.Redis? && Accepts(cfg, e) && e.eventId == other.eventId != "" && e != other
    ensures IsRun(cfg, r) && PutsTakeEffect(r, e.eventId, |r.steps|)
    ensures var s := r.states[|r.steps|];
            && s.stream == [Decodable(e), Decodable(other)] && s.acked == {0, 1} && s.pending == map[]
            && StoredAsPublished(s, 0) && !StoredAsPublished(s, 1)
  {
    var first := CompletedRun(cfg, e, Success);
    var second := SecondRun(cfg, e, other);
    r := Join(cfg, Init, first, second);
  }
}
