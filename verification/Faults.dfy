/**
  What the done marker adds to the processing lock: without it - one lost MarkDone, or one failed
  IsDone - completions are kept apart by the lock alone, under an exact condition of its own.
*/
module Faults {
  import opened Models
  import opened Delivery
  import opened Exclusion
  import opened Races

  // ---------------------------------------------------------------- what the lock alone guarantees

  /** The lock taken at `since` stands and nobody holds the event, or it has expired. */
  ghost predicate LockedOut(cfg: Config, s: State, id: string, since: nat) {
    || s.now > since + cfg.lockTTL
    || (&& id in s.locks && since + cfg.lockTTL <= s.locks[id]
        && forall a :: 0 <= a < |s.attempts| && s.attempts[a].event.eventId == id ==> !s.attempts[a].Holding())
  }

  lemma LockedOutStep(cfg: Config, s: State, step: Step, id: string, since: nat)
    requires cfg.store.Redis? && LockedOut(cfg, s, id, since) && Enabled(cfg, s, step) && ClaimReplies(step)
    ensures LockedOut(cfg, Apply(cfg, s, step), id, since)
  {
  }

  lemma LockedOutStart(cfg: Config, s: State, a: nat, outcome: Outcome)
    requires cfg.store.Redis? && OwnsLock(cfg, s) && Enabled(cfg, s, Act(a, MarkDone(outcome)))
    ensures LockedOut(cfg, Apply(cfg, s, Act(a, MarkDone(outcome))), s.attempts[a].event.eventId,
                      s.attempts[a].claimedAt)
  {
    assert s.attempts[a].Holding();
  }

  lemma {:induction false} LockedOutRun(cfg: Config, r: Run, id: string, since: nat, i: nat, k: nat)
    requires cfg.store.Redis? && IsRun(cfg, r) && ClaimsReply(r) && i <= k < |r.states|
             && LockedOut(cfg, r.states[i], id, since)
    ensures LockedOut(cfg, r.states[k], id, since)
    decreases k
  {
    if i < k {
      var s, t := r.states[k - 1], r.states[k];
      LockedOutRun(cfg, r, id, since, i, k - 1);
      assert t == Apply(cfg, s, r.steps[k - 1]) && ClaimReplies(r.steps[k - 1]);
      LockedOutStep(cfg, s, r.steps[k - 1], id, since);
    }
  }

  /** Whatever IsDone and MarkDone reply or lose, two completions are lockTTL - P apart. */
  lemma LockKeepsApart(cfg: Config, r: Run, P: nat, G: nat, i: nat, j: nat, id: string)
    requires cfg.store.Redis? && P <= cfg.lockTTL && IsRun(cfg, r) && ClaimsReply(r) && TimelyRun(r, P, G)
    requires i < j < |r.steps| && Completes(r.states[i], r.steps[i], id) && Completes(r.states[j], r.steps[j], id)
    ensures r.states[j].now + P > r.states[i].now + cfg.lockTTL
  {
    var a := r.steps[i].a;
    OwnsLockRun(cfg, r, P, G, i);
    assert Enabled(cfg, r.states[i], r.steps[i]) && r.states[i].attempts[a].Holding();
    LockedOutStart(cfg, r.states[i], a, r.steps[i].call.outcome);
    LockedOutRun(cfg, r, id, r.states[i].attempts[a].claimedAt, i + 1, j);
    assert Enabled(cfg, r.states[j], r.steps[j]) && r.states[j].attempts[r.steps[j].a].Holding();
    assert Timely(r.states[i], P, G);
  }

  // ---------------------------------------------------------------- one fault is enough

  /** The fault: a MarkDone that never reaches the store, or an IsDone without a reply. */
  datatype Fault = LostMarkDone | FailedIsDone

  function FaultyStep(fault: Fault): Step {
    if fault.LostMarkDone? then Act(0, MarkDone(Failure(false))) else Act(1, IsDone(true))
  }

  /** As `Reached`, except that step `f` may be the fault. */
  ghost predicate ReachedBut(cfg: Config, r: Run, P: nat, G: nat, s: State, fault: Fault, f: nat) {
    && IsRun(cfg, r) && TimelyRun(r, P, G) && r.states[|r.steps|] == s
    && (forall n :: 0 <= n < |r.steps| && r.steps[n].Act? ==> !r.steps[n].call.Crash?)
    && (forall n :: 0 <= n < |r.steps| ==> StoreReplies(r.steps[n]) || (n == f && r.steps[n] == FaultyStep(fault)))
  }

  lemma ExtendBut(cfg: Config, r: Run, P: nat, G: nat, s: State, fault: Fault, f: nat, step: Step, t: State)
    returns (r': Run)
    requires ReachedBut(cfg, r, P, G, s, fault, f)
    requires Enabled(cfg, s, step) && t == Apply(cfg, s, step) && Timely(t, P, G)
    requires StoreReplies(step) || (|r.steps| == f && step == FaultyStep(fault))
    requires step.Act? ==> !step.call.Crash?
    ensures ReachedBut(cfg, r', P, G, t, fault, f) && r' == Run(r.states + [t], r.steps + [step])
  {
    r' := Append(cfg, Init, r, step);
  }

  /** The first attempt, `d` after its claim, stands at `pc`; the second has yet to check. */
  function FirstAt(cfg: Config, e: RawEvent, d: nat, pc: Pc, done: map<string, nat>): State {
    var T, id := cfg.claimIdle, e.eventId;
    Scene(cfg, e, T + d, map[id := T + cfg.lockTTL], map[id := 0], done, Stored(e),
          Attempt(0, e, pc, T, T), Attempt(Msg(cfg), e, AtIsDone, T, T))
  }

  function MarkerOf(cfg: Config, e: RawEvent, d: nat, fault: Fault): map<string, nat> {
    if fault.LostMarkDone? then map[] else map[e.eventId := cfg.claimIdle + d + cfg.doneTTL]
  }

  /** Both have claimed, the second after the first's lock had expired, `j` after it was taken. */
  function LateAt(cfg: Config, e: RawEvent, j: nat, pc: Pc, done: map<string, nat>): State {
    var T, id := cfg.claimIdle, e.eventId;
    Scene(cfg, e, T + j, map[id := T + j + cfg.lockTTL], map[id := 1], done, Stored(e),
          Attempt(0, e, AtAck, T, T), Attempt(Msg(cfg), e, pc, T + j, T + j))
  }

  lemma FirstWorks(cfg: Config, e: RawEvent, d: nat)
    requires cfg.store.Redis? && Accepts(cfg, e)
    ensures Apply(cfg, FirstClaimed(cfg, e).(now := cfg.claimIdle + d), Act(0, Archive(Success)))
         == FirstAt(cfg, e, d, AtPipeline, map[])
    ensures Apply(cfg, FirstAt(cfg, e, d, AtPipeline, map[]), Act(0, Pipeline)) == FirstAt(cfg, e, d, AtMarkDone, map[])
  {
  }

  lemma FirstWorksRun(cfg: Config, e: RawEvent, d: nat, P: nat, G: nat) returns (r: Run)
    requires cfg.store.Redis? && d <= P && Accepts(cfg, e)
    ensures Reached(cfg, r, P, G, FirstAt(cfg, e, d, AtMarkDone, map[]))
  {
    var s0 := FirstClaimed(cfg, e);
    var s1 := s0.(now := cfg.claimIdle + d);
    FirstWorks(cfg, e, d);
    r := FirstClaimedRun(cfg, e, P, G);
    r := Extend(cfg, r, P, G, s0, Tick(d), s1);
    r := Extend(cfg, r, P, G, s1, Act(0, Archive(Success)), FirstAt(cfg, e, d, AtPipeline, map[]));
    r := Extend(cfg, r, P, G, FirstAt(cfg, e, d, AtPipeline, map[]), Act(0, Pipeline),
                FirstAt(cfg, e, d, AtMarkDone, map[]));
  }

  /** The first has completed, and its lock was taken `j` ago. */
  function AtExpiry(cfg: Config, e: RawEvent, d: nat, j: nat, fault: Fault): State {
    FirstAt(cfg, e, d, AtAck, MarkerOf(cfg, e, d, fault)).(now := cfg.claimIdle + j)
  }

  function Completing(fault: Fault): Step {
    if fault.LostMarkDone? then FaultyStep(fault) else Act(0, MarkDone(Success))
  }

  lemma FirstCompletes(cfg: Config, e: RawEvent, d: nat, fault: Fault)
    requires cfg.store.Redis?
    ensures Apply(cfg, FirstAt(cfg, e, d, AtMarkDone, map[]), Completing(fault))
         == FirstAt(cfg, e, d, AtAck, MarkerOf(cfg, e, d, fault))
  {
  }

  /** The first completes; time passes until the lock is gone. */
  lemma FirstCompletesRun(cfg: Config, e: RawEvent, d: nat, j: nat, P: nat, G: nat, fault: Fault)
    returns (r: Run, i: nat, f: nat)
    requires cfg.store.Redis? && d <= P && d <= j && Accepts(cfg, e)
    ensures ReachedBut(cfg, r, P, G, AtExpiry(cfg, e, d, j, fault), fault, f)
    ensures i < |r.steps| && Completes(r.states[i], r.steps[i], e.eventId) && r.states[i].now == cfg.claimIdle + d
    ensures fault.FailedIsDone? ==> f == |r.steps|
    ensures fault.LostMarkDone? ==> f < |r.steps| && r.steps[f] == FaultyStep(fault)
  {
    var s0, s1 := FirstAt(cfg, e, d, AtMarkDone, map[]), FirstAt(cfg, e, d, AtAck, MarkerOf(cfg, e, d, fault));
    r := FirstWorksRun(cfg, e, d, P, G);
    i := |r.steps|;
    f := if fault.LostMarkDone? then i else i + 2;
    FirstCompletes(cfg, e, d, fault);
    r := ExtendBut(cfg, r, P, G, s0, fault, f, Completing(fault), s1);
    r := ExtendBut(cfg, r, P, G, s1, fault, f, Tick(j - d), AtExpiry(cfg, e, d, j, fault));
  }

  /** The second has checked then, and believes the event is not done. */
  function LateChecked(cfg: Config, e: RawEvent, d: nat, j: nat, fault: Fault): State {
    var s := AtExpiry(cfg, e, d, j, fault);
    s.(attempts := [s.attempts[0], Attempt(Msg(cfg), e, AtClaim, cfg.claimIdle + j, cfg.claimIdle)])
  }

  function Checking(fault: Fault): Step {
    if fault.LostMarkDone? then Act(1, IsDone(false)) else FaultyStep(fault)
  }

  lemma LateChecks(cfg: Config, e: RawEvent, d: nat, j: nat, fault: Fault)
    requires cfg.store.Redis?
    ensures Apply(cfg, AtExpiry(cfg, e, d, j, fault), Checking(fault)) == LateChecked(cfg, e, d, j, fault)
  {
  }

  lemma LateClaims(cfg: Config, e: RawEvent, d: nat, j: nat, fault: Fault)
    requires cfg.store.Redis? && cfg.lockTTL < j
    ensures Apply(cfg, LateChecked(cfg, e, d, j, fault), Act(1, Claim(Success)))
         == LateAt(cfg, e, j, AtArchive, MarkerOf(cfg, e, d, fault))
  {
    var T, id := cfg.claimIdle, e.eventId;
    assert map[id := T + cfg.lockTTL][id := T + j + cfg.lockTTL] == map[id := T + j + cfg.lockTTL];
    assert map[id := 0][id := 1] == map[id := 1];
  }

  lemma LateWorks(cfg: Config, e: RawEvent, j: nat, done: map<string, nat>)
    requires cfg.store.Redis? && Accepts(cfg, e)
    ensures Apply(cfg, LateAt(cfg, e, j, AtArchive, done), Act(1, Archive(Success)))
         == LateAt(cfg, e, j, AtPipeline, done)
    ensures Apply(cfg, LateAt(cfg, e, j, AtPipeline, done), Act(1, Pipeline)) == LateAt(cfg, e, j, AtMarkDone, done)
  {
    assert e.eventId != "" ==> Stored(e)[e.eventId := e] == Stored(e);
  }

  lemma LateCheckedRun(cfg: Config, e: RawEvent, d: nat, j: nat, P: nat, G: nat, fault: Fault)
    returns (r: Run, i: nat, f: nat)
    requires cfg.store.Redis? && d <= P && d <= j && Accepts(cfg, e)
    ensures ReachedBut(cfg, r, P, G, LateChecked(cfg, e, d, j, fault), fault, f)
    ensures i < |r.steps| && Completes(r.states[i], r.steps[i], e.eventId) && r.states[i].now == cfg.claimIdle + d
    ensures f < |r.steps| && r.steps[f] == FaultyStep(fault)
  {
    r, i, f := FirstCompletesRun(cfg, e, d, j, P, G, fault);
    LateChecks(cfg, e, d, j, fault);
    r := ExtendBut(cfg, r, P, G, AtExpiry(cfg, e, d, j, fault), fault, f, Checking(fault),
                   LateChecked(cfg, e, d, j, fault));
  }

  lemma LateClaimedRun(cfg: Config, e: RawEvent, d: nat, j: nat, P: nat, G: nat, fault: Fault)
    returns (r: Run, i: nat, f: nat)
    requires cfg.store.Redis? && d <= P && d <= j && cfg.lockTTL < j && Accepts(cfg, e)
    ensures ReachedBut(cfg, r, P, G, LateAt(cfg, e, j, AtArchive, MarkerOf(cfg, e, d, fault)), fault, f)
    ensures i < |r.steps| && Completes(r.states[i], r.steps[i], e.eventId) && r.states[i].now == cfg.claimIdle + d
    ensures f < |r.steps| && r.steps[f] == FaultyStep(fault)
  {
    var s, t := LateChecked(cfg, e, d, j, fault), LateAt(cfg, e, j, AtArchive, MarkerOf(cfg, e, d, fault));
    r, i, f := LateCheckedRun(cfg, e, d, j, P, G, fault);
    LateClaims(cfg, e, d, j, fault);
    r := ExtendBut(cfg, r, P, G, s, fault, f, Act(1, Claim(Success)), t);
  }

  lemma LateReadyRun(cfg: Config, e: RawEvent, d: nat, j: nat, P: nat, G: nat, fault: Fault)
    returns (r: Run, i: nat, f: nat)
    requires cfg.store.Redis? && d <= P && d <= j && cfg.lockTTL < j && Accepts(cfg, e)
    ensures ReachedBut(cfg, r, P, G, LateAt(cfg, e, j, AtMarkDone, MarkerOf(cfg, e, d, fault)), fault, f)
    ensures i < |r.steps| && Completes(r.states[i], r.steps[i], e.eventId) && r.states[i].now == cfg.claimIdle + d
    ensures f < |r.steps| && r.steps[f] == FaultyStep(fault)
  {
    var done := MarkerOf(cfg, e, d, fault);
    r, i, f := LateClaimedRun(cfg, e, d, j, P, G, fault);
    LateWorks(cfg, e, j, done);
    r := ExtendBut(cfg, r, P, G, LateAt(cfg, e, j, AtArchive, done), fault, f, Act(1, Archive(Success)),
                   LateAt(cfg, e, j, AtPipeline, done));
    r := ExtendBut(cfg, r, P, G, LateAt(cfg, e, j, AtPipeline, done), fault, f, Act(1, Pipeline),
                   LateAt(cfg, e, j, AtMarkDone, done));
  }

  /** With that one fault and nothing else wrong, an event completes at `d` and at `j` after its first claim. */
  lemma OneFaultCompletesTwice(cfg: Config, e: RawEvent, d: nat, j: nat, P: nat, G: nat, fault: Fault)
    returns (r: Run, i: nat, k: nat, f: nat)
    requires cfg.store.Redis? && d <= P && d <= j && cfg.lockTTL < j && Accepts(cfg, e)
    ensures IsRun(cfg, r) && TimelyRun(r, P, G) && i < k < |r.steps| && f < |r.steps| && r.steps[f] == FaultyStep(fault)
    ensures forall n :: 0 <= n < |r.steps| && n != f ==> StoreReplies(r.steps[n])
    ensures Completes(r.states[i], r.steps[i], e.eventId) && Completes(r.states[k], r.steps[k], e.eventId)
    ensures r.states[i].now == cfg.claimIdle + d && r.states[k].now == cfg.claimIdle + j
  {
    r, i, f := LateReadyRun(cfg, e, d, j, P, G, fault);
    k := |r.steps|;
    var s := LateAt(cfg, e, j, AtMarkDone, MarkerOf(cfg, e, d, fault));
    r := ExtendBut(cfg, r, P, G, s, fault, f, Act(1, MarkDone(Success)), Apply(cfg, s, Act(1, MarkDone(Success))));
  }

  /** At most step `f` is the given fault; every other call that matters replies. */
  ghost predicate OneFault(r: Run, fault: Fault, f: nat) {
    forall n :: 0 <= n < |r.steps| ==> StoreReplies(r.steps[n]) || (n == f && r.steps[n] == FaultyStep(fault))
  }

  ghost predicate ApartDespite(cfg: Config, P: nat, G: nat, fault: Fault) {
    forall r, f: nat :: IsRun(cfg, r) && OneFault(r, fault, f) && TimelyRun(r, P, G) ==> CompletionsApart(cfg, r)
  }

  /**
    Completions stay more than doneTTL apart in spite of one such fault, in every run within the bounds,
    if and only if the lock outlives the work by the marker's whole lifetime; the gap plays no part.
  */
  lemma OneFaultExactly(cfg: Config, P: nat, G: nat, e: RawEvent, fault: Fault)
    requires cfg.store.Redis? && Accepts(cfg, e)
    ensures ApartDespite(cfg, P, G, fault) <==> P + cfg.doneTTL <= cfg.lockTTL
  {
    if P + cfg.doneTTL <= cfg.lockTTL {
      forall r, f: nat | IsRun(cfg, r) && OneFault(r, fault, f) && TimelyRun(r, P, G) ensures CompletionsApart(cfg, r) {
        LocksAloneKeepApart(cfg, r, P, G);
      }
    } else {
      var j := cfg.lockTTL + 1;
      var r, i, k, f := OneFaultCompletesTwice(cfg, e, Min(P, j), j, P, G, fault);
      assert OneFault(r, fault, f) && !CompletionsApart(cfg, r);
    }
  }

  /** As long as claims reply, any number of such faults is harmless under that condition. */
  lemma LocksAloneKeepApart(cfg: Config, r: Run, P: nat, G: nat)
    requires cfg.store.Redis? && P + cfg.doneTTL <= cfg.lockTTL && IsRun(cfg, r) && ClaimsReply(r) && TimelyRun(r, P, G)
    ensures CompletionsApart(cfg, r)
  {
    forall i, j, id | 0 <= i < j < |r.steps| && Completes(r.states[i], r.steps[i], id)
                      && Completes(r.states[j], r.steps[j], id)
      ensures r.states[j].now > r.states[i].now + cfg.doneTTL
    {
      LockKeepsApart(cfg, r, P, G, i, j, id);
    }
  }
}
