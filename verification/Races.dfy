/**
  Two workers and one event: schedules that break the guarantees of `Exclusion` as soon as their
  conditions fail, which makes those conditions exact.
*/
module Races {
  import opened Models
  import opened Delivery
  import opened AckSafety
  import opened Exclusion

  /** The message of the second attempt: the first's, reclaimed, or with crash recovery disabled a second entry. */
  function Msg(cfg: Config): nat {
    if cfg.claimIdle > 0 then 0 else 1
  }

  function Entries(cfg: Config, e: RawEvent): seq<Entry> {
    if cfg.claimIdle > 0 then [Decodable(e)] else [Decodable(e), Decodable(e)]
  }

  function Delivered(cfg: Config): map<nat, nat> {
    if cfg.claimIdle > 0 then map[0 := cfg.claimIdle] else map[0 := 0, 1 := 0]
  }

  /** Event `e`, delivered at time 0 to attempt 0 and one claimIdle later to attempt 1. */
  function Scene(cfg: Config, e: RawEvent, now: nat, locks: map<string, nat>, owner: map<string, nat>,
                 done: map<string, nat>, archive: map<string, RawEvent>, first: Attempt, second: Attempt): State {
    State(now, Entries(cfg, e), Msg(cfg) + 1, Delivered(cfg), {}, locks, owner, done, archive, [first, second])
  }

  /** A run without crashes or store errors, within the bounds, that has reached `s`. */
  ghost predicate Reached(cfg: Config, r: Run, P: nat, G: nat, s: State) {
    && IsRun(cfg, r) && AllReply(r) && TimelyRun(r, P, G) && r.states[|r.steps|] == s
    && forall n :: 0 <= n < |r.steps| && r.steps[n].Act? ==> !r.steps[n].call.Crash?
  }

  lemma Extend(cfg: Config, r: Run, P: nat, G: nat, s: State, step: Step, t: State) returns (r': Run)
    requires Reached(cfg, r, P, G, s)
    requires Enabled(cfg, s, step) && t == Apply(cfg, s, step) && StoreReplies(step) && Timely(t, P, G)
    requires step.Act? ==> !step.call.Crash?
    ensures Reached(cfg, r', P, G, t) && r' == Run(r.states + [t], r.steps + [step])
  {
    r' := Append(cfg, Init, r, step);
  }

  /** Both attempts are about to check. */
  function BothHanded(cfg: Config, e: RawEvent): State {
    var T := cfg.claimIdle;
    Scene(cfg, e, T, map[], map[], map[], map[], Attempt(0, e, AtIsDone, 0, 0), Attempt(Msg(cfg), e, AtIsDone, T, T))
  }

  lemma ReclaimedRun(cfg: Config, e: RawEvent, P: nat, G: nat) returns (r: Run)
    requires !cfg.store.Absent? && cfg.claimIdle > 0
    ensures Reached(cfg, r, P, G, BothHanded(cfg, e))
  {
    var T := cfg.claimIdle;
    var published := Init.(stream := [Decodable(e)]);
    var delivered := published.(cursor := 1, pending := map[0 := 0], attempts := [Attempt(0, e, AtIsDone, 0, 0)]);
    r := Run([Init], []);
    r := Extend(cfg, r, P, G, Init, Publish(Decodable(e)), published);
    r := Extend(cfg, r, P, G, published, Deliver, delivered);
    r := Extend(cfg, r, P, G, delivered, Tick(T), delivered.(now := T));
    assert map[0 := 0][0 := T] == map[0 := T];
    r := Extend(cfg, r, P, G, delivered.(now := T), Reclaim(0), BothHanded(cfg, e));
  }

  lemma PublishedTwiceRun(cfg: Config, e: RawEvent, P: nat, G: nat) returns (r: Run)
    requires !cfg.store.Absent? && cfg.claimIdle == 0
    ensures Reached(cfg, r, P, G, BothHanded(cfg, e))
  {
    var s1 := Init.(stream := [Decodable(e)]);
    var s2 := s1.(cursor := 1, pending := map[0 := 0], attempts := [Attempt(0, e, AtIsDone, 0, 0)]);
    var s3 := s2.(stream := [Decodable(e), Decodable(e)]);
    r := Run([Init], []);
    r := Extend(cfg, r, P, G, Init, Publish(Decodable(e)), s1);
    r := Extend(cfg, r, P, G, s1, Deliver, s2);
    r := Extend(cfg, r, P, G, s2, Publish(Decodable(e)), s3);
    assert map[0 := 0][1 := 0] == map[0 := 0, 1 := 0];
    r := Extend(cfg, r, P, G, s3, Deliver, BothHanded(cfg, e));
  }

  lemma BothHandedRun(cfg: Config, e: RawEvent, P: nat, G: nat) returns (r: Run)
    requires !cfg.store.Absent?
    ensures Reached(cfg, r, P, G, BothHanded(cfg, e))
  {
    if cfg.claimIdle > 0 {
      r := ReclaimedRun(cfg, e, P, G);
    } else {
      r := PublishedTwiceRun(cfg, e, P, G);
    }
  }

  /** The first has claimed at once; the second has yet to look. */
  function FirstClaimed(cfg: Config, e: RawEvent): State {
    var T, id := cfg.claimIdle, e.eventId;
    Scene(cfg, e, T, map[id := T + cfg.lockTTL], map[id := 0], map[], map[],
          Attempt(0, e, AtArchive, T, T), Attempt(Msg(cfg), e, AtIsDone, T, T))
  }

  lemma FirstClaimedRun(cfg: Config, e: RawEvent, P: nat, G: nat) returns (r: Run)
    requires !cfg.store.Absent?
    ensures Reached(cfg, r, P, G, FirstClaimed(cfg, e))
  {
    var T := cfg.claimIdle;
    var s0 := BothHanded(cfg, e);
    var s1 := Scene(cfg, e, T, map[], map[], map[], map[], Attempt(0, e, AtClaim, T, 0), s0.attempts[1]);
    r := BothHandedRun(cfg, e, P, G);
    r := Extend(cfg, r, P, G, s0, Act(0, IsDone(false)), s1);
    r := Extend(cfg, r, P, G, s1, Act(0, Claim(Success)), FirstClaimed(cfg, e));
  }

  /** Both have read "not done"; the first claimed at time `claimIdle`, `d` ago. */
  function BothChecked(cfg: Config, e: RawEvent, d: nat): State {
    var T, id := cfg.claimIdle, e.eventId;
    Scene(cfg, e, T + d, map[id := T + cfg.lockTTL], map[id := 0], map[], map[],
          Attempt(0, e, AtArchive, T, T), Attempt(Msg(cfg), e, AtClaim, T + d, T))
  }

  lemma BothCheckedRun(cfg: Config, e: RawEvent, d: nat, P: nat, G: nat) returns (r: Run)
    requires !cfg.store.Absent? && d <= P
    ensures Reached(cfg, r, P, G, BothChecked(cfg, e, d))
  {
    var s0 := FirstClaimed(cfg, e);
    var s1 := s0.(now := cfg.claimIdle + d);
    r := FirstClaimedRun(cfg, e, P, G);
    r := Extend(cfg, r, P, G, s0, Tick(d), s1);
    r := Extend(cfg, r, P, G, s1, Act(1, IsDone(false)), BothChecked(cfg, e, d));
  }

  /** Beyond lockTTL the second attempt takes the expired lock while the first still works. */
  lemma OverlapRun(cfg: Config, e: RawEvent, P: nat, G: nat) returns (r: Run)
    requires cfg.store.Redis? && cfg.lockTTL < P
    ensures IsRun(cfg, r) && AllReply(r) && TimelyRun(r, P, G) && !Exclusive(r.states[|r.steps|])
  {
    var d := cfg.lockTTL + 1;
    var s := BothChecked(cfg, e, d);
    r := BothCheckedRun(cfg, e, d, P, G);
    var t := Apply(cfg, s, Act(1, Claim(Success)));
    assert t.attempts[0].Holding() && t.attempts[1].Holding();
    r := Extend(cfg, r, P, G, s, Act(1, Claim(Success)), t);
  }

  lemma FailedClaimGoesOn(cfg: Config, e: RawEvent)
    ensures var s, step := BothChecked(cfg, e, 0), Act(1, Claim(Failure(false)));
            Enabled(cfg, s, step) && Timely(Apply(cfg, s, step), 0, 0) && !Exclusive(Apply(cfg, s, step))
  {
    var t := Apply(cfg, BothChecked(cfg, e, 0), Act(1, Claim(Failure(false))));
    assert t.attempts[0].Holding() && t.attempts[1].Holding();
  }

  lemma ExtendByFailure(cfg: Config, r: Run, P: nat, G: nat, s: State, step: Step) returns (r': Run)
    requires Reached(cfg, r, P, G, s) && Enabled(cfg, s, step) && Timely(Apply(cfg, s, step), P, G)
    ensures r' == Run(r.states + [Apply(cfg, s, step)], r.steps + [step])
    ensures IsRun(cfg, r') && TimelyRun(r', P, G) && forall i :: 0 <= i < |r.steps| ==> StoreReplies(r'.steps[i])
  {
    r' := Append(cfg, Init, r, step);
  }

  /** One failed claim suffices: the worker goes on without the lock, however short the work. */
  lemma FailedClaimOverlaps(cfg: Config, e: RawEvent) returns (r: Run)
    requires !cfg.store.Absent?
    ensures IsRun(cfg, r) && TimelyRun(r, 0, 0) && |r.steps| > 0 && !Exclusive(r.states[|r.steps|])
    ensures forall i :: 0 <= i < |r.steps| - 1 ==> StoreReplies(r.steps[i])
    ensures r.steps[|r.steps| - 1] == Act(1, Claim(Failure(false)))
  {
    r := BothCheckedRun(cfg, e, 0, 0, 0);
    FailedClaimGoesOn(cfg, e);
    r := ExtendByFailure(cfg, r, 0, 0, BothChecked(cfg, e, 0), Act(1, Claim(Failure(false))));
  }

  ghost predicate AlwaysExclusive(cfg: Config, P: nat, G: nat) {
    forall r | IsRun(cfg, r) && AllReply(r) && TimelyRun(r, P, G) ::
      forall k :: 0 <= k < |r.states| ==> Exclusive(r.states[k])
  }

  /** Mutual exclusion in every run within the bounds, if and only if the lock outlives the work. */
  lemma MutualExclusionExactly(cfg: Config, P: nat, G: nat, e: RawEvent)
    requires cfg.store.Redis?
    ensures AlwaysExclusive(cfg, P, G) <==> P <= cfg.lockTTL
  {
    if P <= cfg.lockTTL {
      forall r, k | IsRun(cfg, r) && AllReply(r) && TimelyRun(r, P, G) && 0 <= k < |r.states|
        ensures Exclusive(r.states[k])
      {
        MutualExclusion(cfg, r, P, G, k);
      }
    } else {
      var r := OverlapRun(cfg, e, P, G);
      assert !Exclusive(r.states[|r.steps|]);
    }
  }

  function Stored(e: RawEvent): map<string, RawEvent> {
    if e.eventId == "" then map[] else map[e.eventId := e]
  }

  function LocksAfterDone(cfg: Config, id: string): map<string, nat> {
    if cfg.store.Memory? then map[] else map[id := cfg.claimIdle + cfg.lockTTL]
  }

  /** The first attempt has marked the event done at `d`; the second still believes it is not. */
  function FirstDone(cfg: Config, e: RawEvent, d: nat): State {
    var T, id := cfg.claimIdle, e.eventId;
    Scene(cfg, e, T + d, LocksAfterDone(cfg, id), map[id := 0], map[id := T + d + cfg.doneTTL], Stored(e),
          Attempt(0, e, AtAck, T, T), Attempt(Msg(cfg), e, AtClaim, T + d, T))
  }

  function FirstReady(cfg: Config, e: RawEvent, d: nat): State {
    var s := BothChecked(cfg, e, d);
    s.(archive := Stored(e), attempts := [Attempt(0, e, AtMarkDone, cfg.claimIdle, cfg.claimIdle), s.attempts[1]])
  }

  lemma FirstReadyRun(cfg: Config, e: RawEvent, d: nat, P: nat, G: nat) returns (r: Run)
    requires !cfg.store.Absent? && d <= P && Accepts(cfg, e)
    ensures Reached(cfg, r, P, G, FirstReady(cfg, e, d))
  {
    var s0, s2 := BothChecked(cfg, e, d), FirstReady(cfg, e, d);
    var s1 := s2.(attempts := [Attempt(0, e, AtPipeline, cfg.claimIdle, cfg.claimIdle), s0.attempts[1]]);
    r := BothCheckedRun(cfg, e, d, P, G);
    r := Extend(cfg, r, P, G, s0, Act(0, Archive(Success)), s1);
    r := Extend(cfg, r, P, G, s1, Act(0, Pipeline), s2);
  }

  lemma FirstDoneRun(cfg: Config, e: RawEvent, d: nat, P: nat, G: nat) returns (r: Run)
    requires !cfg.store.Absent? && d <= P && Accepts(cfg, e)
    ensures Reached(cfg, r, P, G, FirstDone(cfg, e, d))
    ensures |r.steps| > 0 && Completes(r.states[|r.steps| - 1], r.steps[|r.steps| - 1], e.eventId)
    ensures r.states[|r.steps| - 1].now == cfg.claimIdle + d
  {
    r := FirstReadyRun(cfg, e, d, P, G);
    assert map[e.eventId := cfg.claimIdle + cfg.lockTTL] - {e.eventId} == map[];
    r := Extend(cfg, r, P, G, FirstReady(cfg, e, d), Act(0, MarkDone(Success)), FirstDone(cfg, e, d));
  }

  /** The second attempt has claimed at `j` and stands at `pc`. */
  function SecondAt(cfg: Config, e: RawEvent, d: nat, j: nat, pc: Pc): State {
    var T, id := cfg.claimIdle, e.eventId;
    Scene(cfg, e, T + j, map[id := T + j + cfg.lockTTL], map[id := 1], map[id := T + d + cfg.doneTTL], Stored(e),
          Attempt(0, e, AtAck, T, T), Attempt(Msg(cfg), e, pc, T + d, T + j))
  }

  lemma SecondClaims(cfg: Config, e: RawEvent, d: nat, j: nat)
    requires !cfg.store.Absent? && d <= j && (cfg.store.Redis? ==> cfg.lockTTL < j)
    ensures var s := FirstDone(cfg, e, d).(now := cfg.claimIdle + j);
            Enabled(cfg, s, Act(1, Claim(Success)))
            && Apply(cfg, s, Act(1, Claim(Success))) == SecondAt(cfg, e, d, j, AtArchive)
  {
    var T, id := cfg.claimIdle, e.eventId;
    assert LocksAfterDone(cfg, id)[id := T + j + cfg.lockTTL] == map[id := T + j + cfg.lockTTL];
    assert map[id := 0][id := 1] == map[id := 1];
  }

  lemma SecondWorks(cfg: Config, e: RawEvent, d: nat, j: nat)
    requires !cfg.store.Absent? && Accepts(cfg, e)
    ensures Apply(cfg, SecondAt(cfg, e, d, j, AtArchive), Act(1, Archive(Success)))
         == SecondAt(cfg, e, d, j, AtPipeline)
    ensures Apply(cfg, SecondAt(cfg, e, d, j, AtPipeline), Act(1, Pipeline)) == SecondAt(cfg, e, d, j, AtMarkDone)
  {
    assert e.eventId != "" ==> Stored(e)[e.eventId := e] == Stored(e);
  }

  lemma SecondClaimedRun(cfg: Config, e: RawEvent, d: nat, j: nat, P: nat, G: nat) returns (r: Run, i: nat)
    requires !cfg.store.Absent? && d <= P && d <= j <= d + G && Accepts(cfg, e)
    requires cfg.store.Redis? ==> cfg.lockTTL < j
    ensures Reached(cfg, r, P, G, SecondAt(cfg, e, d, j, AtArchive))
    ensures i < |r.steps| && Completes(r.states[i], r.steps[i], e.eventId) && r.states[i].now == cfg.claimIdle + d
  {
    var s0 := FirstDone(cfg, e, d);
    var s1 := s0.(now := cfg.claimIdle + j);
    r := FirstDoneRun(cfg, e, d, P, G);
    i := |r.steps| - 1;
    r := Extend(cfg, r, P, G, s0, Tick(j - d), s1);
    SecondClaims(cfg, e, d, j);
    r := Extend(cfg, r, P, G, s1, Act(1, Claim(Success)), SecondAt(cfg, e, d, j, AtArchive));
  }

  lemma SecondReadyRun(cfg: Config, e: RawEvent, d: nat, j: nat, P: nat, G: nat) returns (r: Run, i: nat)
    requires !cfg.store.Absent? && d <= P && d <= j <= d + G && Accepts(cfg, e)
    requires cfg.store.Redis? ==> cfg.lockTTL < j
    ensures Reached(cfg, r, P, G, SecondAt(cfg, e, d, j, AtMarkDone))
    ensures i < |r.steps| && Completes(r.states[i], r.steps[i], e.eventId) && r.states[i].now == cfg.claimIdle + d
  {
    r, i := SecondClaimedRun(cfg, e, d, j, P, G);
    SecondWorks(cfg, e, d, j);
    r := Extend(cfg, r, P, G, SecondAt(cfg, e, d, j, AtArchive), Act(1, Archive(Success)),
                SecondAt(cfg, e, d, j, AtPipeline));
    r := Extend(cfg, r, P, G, SecondAt(cfg, e, d, j, AtPipeline), Act(1, Pipeline), SecondAt(cfg, e, d, j, AtMarkDone));
  }

  /** One event completed twice: at `d` and at `j` after the first claim. */
  lemma TwoCompletionsRun(cfg: Config, e: RawEvent, d: nat, j: nat, P: nat, G: nat) returns (r: Run, i: nat, k: nat)
    requires !cfg.store.Absent? && d <= P && d <= j <= d + G && Accepts(cfg, e)
    requires cfg.store.Redis? ==> cfg.lockTTL < j
    ensures IsRun(cfg, r) && AllReply(r) && TimelyRun(r, P, G) && i < k < |r.steps|
    ensures Completes(r.states[i], r.steps[i], e.eventId) && Completes(r.states[k], r.steps[k], e.eventId)
    ensures r.states[i].now == cfg.claimIdle + d && r.states[k].now == cfg.claimIdle + j
    ensures forall n :: 0 <= n < |r.steps| && r.steps[n].Act? ==> !r.steps[n].call.Crash?
  {
    r, i := SecondReadyRun(cfg, e, d, j, P, G);
    k := |r.steps|;
    var s := SecondAt(cfg, e, d, j, AtMarkDone);
    r := Extend(cfg, r, P, G, s, Act(1, MarkDone(Success)), Apply(cfg, s, Act(1, MarkDone(Success))));
  }

  ghost predicate AlwaysApart(cfg: Config, P: nat, G: nat) {
    forall r :: IsRun(cfg, r) && AllReply(r) && TimelyRun(r, P, G) ==> CompletionsApart(cfg, r)
  }

  /**
    Completions of one event are more than doneTTL apart in every run within the bounds, if and
    only if the lock outlives the work by the check-to-claim gap, or by the marker itself.
  */
  lemma AtMostOneCompletionExactly(cfg: Config, P: nat, G: nat, e: RawEvent)
    requires cfg.store.Redis? && Accepts(cfg, e)
    ensures AlwaysApart(cfg, P, G) <==> P + Min(G, cfg.doneTTL) <= cfg.lockTTL
  {
    if P + Min(G, cfg.doneTTL) <= cfg.lockTTL {
      forall r | IsRun(cfg, r) && AllReply(r) && TimelyRun(r, P, G) ensures CompletionsApart(cfg, r) {
        AtMostOneCompletion(cfg, r, P, G);
      }
    } else {
      var j := cfg.lockTTL + 1;
      var r, i, k := TwoCompletionsRun(cfg, e, Min(P, j), j, P, G);
      assert !CompletionsApart(cfg, r);
    }
  }

  /**
    The memory store excludes without any timing, yet drops the lock on MarkDone: one event can
    complete twice at one instant, without crash, error or delay.
  */
  lemma MemoryStoreCompletesTwice(cfg: Config, e: RawEvent) returns (r: Run, i: nat, k: nat)
    requires cfg.store.Memory? && Accepts(cfg, e)
    ensures IsRun(cfg, r) && AllReply(r) && TimelyRun(r, 0, 0) && i < k < |r.steps|
    ensures Completes(r.states[i], r.steps[i], e.eventId) && Completes(r.states[k], r.steps[k], e.eventId)
    ensures r.states[i].now == r.states[k].now
    ensures forall n :: 0 <= n < |r.steps| && r.steps[n].Act? ==> !r.steps[n].call.Crash?
    ensures forall n :: 0 <= n < |r.states| ==> Exclusive(r.states[n])
  {
    r, i, k := TwoCompletionsRun(cfg, e, 0, 0, 0, 0);
    forall n | 0 <= n < |r.states| ensures Exclusive(r.states[n]) {
      MutualExclusion(cfg, r, 0, 0, n);
    }
  }

  // ---------------------------------------------------------------- without crash recovery

  /** Attempts are begun in stream order, one per entry. */
  ghost predicate OnePerEntry(s: State) {
    && (forall a :: 0 <= a < |s.attempts| ==> s.attempts[a].msg < s.cursor)
    && (forall a, b :: 0 <= a < b < |s.attempts| ==> s.attempts[a].msg < s.attempts[b].msg)
  }

  lemma {:induction false} OnePerEntryRun(cfg: Config, r: Run, k: nat)
    requires cfg.claimIdle == 0 && IsRun(cfg, r) && k < |r.states|
    ensures OnePerEntry(r.states[k])
  {
    if k > 0 {
      OnePerEntryRun(cfg, r, k - 1);
      assert Enabled(cfg, r.states[k - 1], r.steps[k - 1]);
    }
  }

  /**
    With crash recovery disabled and distinct event IDs every event has a single attempt, so nothing
    can break exclusion: only a repeated event ID makes the conditions above matter.
  */
  lemma OneAttemptWithoutRecovery(cfg: Config, r: Run, k: nat)
    requires cfg.claimIdle == 0 && IsRun(cfg, r) && k < |r.states| && DistinctIds(r.states[k].stream)
    ensures forall a, b :: 0 <= a < b < |r.states[k].attempts| ==>
                             r.states[k].attempts[a].event.eventId != r.states[k].attempts[b].event.eventId
    ensures Exclusive(r.states[k])
  {
    OnePerEntryRun(cfg, r, k);
    WellFormedRun(cfg, r, k);
  }
}
