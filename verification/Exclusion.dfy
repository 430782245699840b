/**
  The timed guarantees of the processing lock and the done marker, with the exact conditions under
  which they hold.

  `P` bounds the time a live attempt takes from its claim to its MarkDone or Release, and `G` the
  time from its IsDone check to its claim.  A crashed attempt is not bounded.
*/
module Exclusion {
  import opened Models
  import opened Delivery

  function Min(x: nat, y: nat): nat {
    if x <= y then x else y
  }

  ghost predicate Timely(s: State, P: nat, G: nat) {
    && (forall a :: 0 <= a < |s.attempts| && s.attempts[a].pc == AtClaim ==> s.now <= s.attempts[a].checkedAt + G)
    && (forall a :: 0 <= a < |s.attempts| && s.attempts[a].Holding() ==> s.now <= s.attempts[a].claimedAt + P)
  }

  ghost predicate TimelyRun(r: Run, P: nat, G: nat) {
    forall k :: 0 <= k < |r.states| ==> Timely(r.states[k], P, G)
  }

  /** No claim ends in an error, which the worker would treat as a claim won. */
  predicate ClaimReplies(step: Step) {
    step.Act? && step.call.Claim? ==> step.call.outcome.Success?
  }

  /** IsDone, claim and MarkDone reply; releases, archive writes and acknowledgements may still fail. */
  predicate StoreReplies(step: Step) {
    && ClaimReplies(step)
    && (step.Act? && step.call.IsDone? ==> !step.call.failed)
    && (step.Act? && step.call.MarkDone? ==> step.call.outcome.Applied())
  }

  ghost predicate ClaimsReply(r: Run) {
    forall i :: 0 <= i < |r.steps| ==> ClaimReplies(r.steps[i])
  }

  ghost predicate AllReply(r: Run) {
    forall i :: 0 <= i < |r.steps| ==> StoreReplies(r.steps[i])
  }

  // ---------------------------------------------------------------- mutual exclusion

  /** Every attempt that holds an event holds the lock it set itself. */
  ghost predicate OwnsLock(cfg: Config, s: State) {
    forall a :: 0 <= a < |s.attempts| && s.attempts[a].Holding() ==>
                  var id := s.attempts[a].event.eventId;
                  && id in s.locks && s.locks[id] == s.attempts[a].claimedAt + cfg.lockTTL
                  && id in s.lockOwner && s.lockOwner[id] == a
  }

  ghost predicate Exclusive(s: State) {
    forall a, b | 0 <= a < |s.attempts| && 0 <= b < |s.attempts| && s.attempts[a].Holding()
                  && s.attempts[b].Holding() ::
      s.attempts[a].event.eventId == s.attempts[b].event.eventId ==> a == b
  }

  /** The memory store needs no timing; the Redis store needs the lock to outlive the work. */
  ghost predicate LockOutlives(cfg: Config, s: State, P: nat, G: nat) {
    cfg.store.Memory? || (cfg.store.Redis? && P <= cfg.lockTTL && Timely(s, P, G))
  }

  lemma OwnsLockAct(cfg: Config, s: State, a: nat, call: Call, P: nat, G: nat)
    requires OwnsLock(cfg, s) && LockOutlives(cfg, s, P, G)
    requires Enabled(cfg, s, Act(a, call)) && ClaimReplies(Act(a, call))
    ensures OwnsLock(cfg, Apply(cfg, s, Act(a, call)))
  {
    var t := Apply(cfg, s, Act(a, call));
    var id := s.attempts[a].event.eventId;
    forall b | 0 <= b < |t.attempts| && b != a && t.attempts[b].Holding()
      ensures var x := t.attempts[b].event.eventId;
              x in t.locks && t.locks[x] == t.attempts[b].claimedAt + cfg.lockTTL && x in t.lockOwner
              && t.lockOwner[x] == b
    {
      assert t.attempts[b] == s.attempts[b];
      if t.attempts[b].event.eventId == id {
        assert s.lockOwner[id] == b && LockLive(cfg, s, id);
        assert !s.attempts[a].Holding();
      }
    }
    if t.attempts[a].Holding() && !s.attempts[a].Holding() {
      assert call.Claim? && !LockLive(cfg, s, id);
    }
  }

  lemma OwnsLockStep(cfg: Config, s: State, step: Step, P: nat, G: nat)
    requires OwnsLock(cfg, s) && LockOutlives(cfg, s, P, G) && Enabled(cfg, s, step) && ClaimReplies(step)
    ensures OwnsLock(cfg, Apply(cfg, s, step))
  {
    if step.Act? {
      OwnsLockAct(cfg, s, step.a, step.call, P, G);
    }
  }

  lemma {:induction false} OwnsLockRun(cfg: Config, r: Run, P: nat, G: nat, k: nat)
    requires IsRun(cfg, r) && ClaimsReply(r) && k < |r.states|
    requires cfg.store.Memory? || (cfg.store.Redis? && P <= cfg.lockTTL && TimelyRun(r, P, G))
    ensures OwnsLock(cfg, r.states[k])
  {
    if k > 0 {
      OwnsLockRun(cfg, r, P, G, k - 1);
      OwnsLockStep(cfg, r.states[k - 1], r.steps[k - 1], P, G);
    }
  }

  /** At most one live attempt per event is ever between its claim and its MarkDone or Release. */
  lemma MutualExclusion(cfg: Config, r: Run, P: nat, G: nat, k: nat)
    requires IsRun(cfg, r) && ClaimsReply(r) && k < |r.states|
    requires cfg.store.Memory? || (cfg.store.Redis? && P <= cfg.lockTTL && TimelyRun(r, P, G))
    ensures Exclusive(r.states[k])
  {
    OwnsLockRun(cfg, r, P, G, k);
  }

  /** Although DEL carries no owner token, a release only ever deletes the lock its own attempt set. */
  lemma ReleasesOwnLock(cfg: Config, r: Run, P: nat, G: nat, i: nat)
    requires IsRun(cfg, r) && ClaimsReply(r) && i < |r.steps|
    requires cfg.store.Memory? || (cfg.store.Redis? && P <= cfg.lockTTL && TimelyRun(r, P, G))
    requires r.steps[i].Act? && r.steps[i].call.Release?
    ensures var s, a := r.states[i], r.steps[i].a;
            var id := s.attempts[a].event.eventId;
            LockLive(cfg, s, id) && id in s.lockOwner && s.lockOwner[id] == a
            && s.locks[id] == s.attempts[a].claimedAt + cfg.lockTTL
  {
    OwnsLockRun(cfg, r, P, G, i);
    assert Timely(r.states[i], P, G) || cfg.store.Memory?;
    assert Enabled(cfg, r.states[i], r.steps[i]);
  }

  // ---------------------------------------------------------------- at most one completion

  ghost predicate Stamped(s: State) {
    forall a :: 0 <= a < |s.attempts| ==> s.attempts[a].checkedAt <= s.now && s.attempts[a].claimedAt <= s.now
  }

  /**
    No attempt works on an event whose done marker is live, and an attempt that read "not done"
    before the marker was set finds the lock still taken.
  */
  ghost predicate MarkerGuards(cfg: Config, s: State, G: nat) {
    && (forall a :: 0 <= a < |s.attempts| && s.attempts[a].Holding() ==> !DoneLive(cfg, s, s.attempts[a].event.eventId))
    && (forall a :: 0 <= a < |s.attempts| && s.attempts[a].pc == AtClaim ==> ClaimBlocked(cfg, s, s.attempts[a], G))
  }

  ghost predicate ClaimBlocked(cfg: Config, s: State, att: Attempt, G: nat) {
    var id := att.event.eventId;
    DoneLive(cfg, s, id) ==> id in s.locks && (att.checkedAt + G <= s.locks[id] || s.done[id] <= s.locks[id])
  }

  ghost predicate CompletionInv(cfg: Config, s: State, G: nat) {
    Stamped(s) && OwnsLock(cfg, s) && MarkerGuards(cfg, s, G)
  }

  ghost predicate LockCovers(cfg: Config, P: nat, G: nat) {
    cfg.store.Redis? && P + Min(G, cfg.doneTTL) <= cfg.lockTTL
  }

  /** A claim that succeeds finds the done marker absent or expired. */
  lemma ClaimFindsNoMarker(cfg: Config, s: State, a: nat, P: nat, G: nat)
    requires LockCovers(cfg, P, G) && Timely(s, P, G) && MarkerGuards(cfg, s, G)
    requires a < |s.attempts| && s.attempts[a].pc == AtClaim && !LockLive(cfg, s, s.attempts[a].event.eventId)
    ensures !DoneLive(cfg, s, s.attempts[a].event.eventId)
  {
    assert ClaimBlocked(cfg, s, s.attempts[a], G);
  }

  /** The lock of a finishing attempt outlasts every claim that could have missed its marker. */
  lemma MarkerIsCovered(cfg: Config, s: State, t: State, a: nat, b: nat, P: nat, G: nat)
    requires LockCovers(cfg, P, G) && Timely(s, P, G) && Stamped(s) && OwnsLock(cfg, s)
    requires a < |s.attempts| && s.attempts[a].pc == AtMarkDone && b < |s.attempts|
    requires t.locks == s.locks && t.now == s.now
    requires t.done == s.done[s.attempts[a].event.eventId := s.now + cfg.doneTTL]
    requires s.attempts[b].event.eventId == s.attempts[a].event.eventId
    ensures ClaimBlocked(cfg, t, s.attempts[b], G)
  {
    assert s.attempts[a].Holding();
  }

  lemma NoWorkWhileDone(cfg: Config, s: State, a: nat, call: Call, P: nat, G: nat)
    requires LockCovers(cfg, P, G) && Timely(s, P, G) && CompletionInv(cfg, s, G)
    requires Enabled(cfg, s, Act(a, call)) && StoreReplies(Act(a, call))
    ensures var t := Apply(cfg, s, Act(a, call));
            forall b :: 0 <= b < |t.attempts| && t.attempts[b].Holding() ==>
                          !DoneLive(cfg, t, t.attempts[b].event.eventId)
  {
    var t := Apply(cfg, s, Act(a, call));
    var id := s.attempts[a].event.eventId;
    forall b | 0 <= b < |t.attempts| && t.attempts[b].Holding()
      ensures !DoneLive(cfg, t, t.attempts[b].event.eventId)
    {
      if b == a && call.Claim? {
        ClaimFindsNoMarker(cfg, s, a, P, G);
      } else {
        assert call.MarkDone? ==> s.attempts[a].Holding();
      }
    }
  }

  lemma MarkerGuardsAct(cfg: Config, s: State, a: nat, call: Call, P: nat, G: nat)
    requires LockCovers(cfg, P, G) && Timely(s, P, G) && CompletionInv(cfg, s, G)
    requires Enabled(cfg, s, Act(a, call)) && StoreReplies(Act(a, call))
    ensures MarkerGuards(cfg, Apply(cfg, s, Act(a, call)), G)
  {
    NoWorkWhileDone(cfg, s, a, call, P, G);
    var t := Apply(cfg, s, Act(a, call));
    var id := s.attempts[a].event.eventId;
    forall b | 0 <= b < |t.attempts| && t.attempts[b].pc == AtClaim
      ensures ClaimBlocked(cfg, t, t.attempts[b], G)
    {
      if b != a && t.attempts[b].event.eventId == id {
        assert ClaimBlocked(cfg, s, s.attempts[b], G);
        if call.MarkDone? {
          MarkerIsCovered(cfg, s, t, a, b, P, G);
        } else if call.Claim? && !LockLive(cfg, s, id) {
          ClaimFindsNoMarker(cfg, s, a, P, G);
        }
      } else if b != a {
        assert ClaimBlocked(cfg, s, s.attempts[b], G);
      }
    }
  }

  lemma CompletionInvStep(cfg: Config, s: State, step: Step, P: nat, G: nat)
    requires LockCovers(cfg, P, G) && Timely(s, P, G) && CompletionInv(cfg, s, G)
    requires Enabled(cfg, s, step) && StoreReplies(step)
    ensures CompletionInv(cfg, Apply(cfg, s, step), G)
  {
    OwnsLockStep(cfg, s, step, P, G);
    var t := Apply(cfg, s, step);
    if step.Act? {
      MarkerGuardsAct(cfg, s, step.a, step.call, P, G);
    } else {
      forall b | 0 <= b < |t.attempts| && t.attempts[b].pc == AtClaim
        ensures ClaimBlocked(cfg, t, t.attempts[b], G)
      {
        assert ClaimBlocked(cfg, s, s.attempts[b], G);
      }
    }
  }

  lemma {:induction false} CompletionInvRun(cfg: Config, r: Run, P: nat, G: nat, k: nat)
    requires LockCovers(cfg, P, G) && IsRun(cfg, r) && AllReply(r) && TimelyRun(r, P, G) && k < |r.states|
    ensures CompletionInv(cfg, r.states[k], G)
  {
    if k > 0 {
      CompletionInvRun(cfg, r, P, G, k - 1);
      CompletionInvStep(cfg, r.states[k - 1], r.steps[k - 1], P, G);
    }
  }

  lemma MarkerStep(cfg: Config, s: State, step: Step, id: string, since: nat)
    requires cfg.store.Redis? && Enabled(cfg, s, step) && since <= s.now
    requires (id in s.done && since + cfg.doneTTL <= s.done[id]) || (Completes(s, step, id) && StoreReplies(step))
    ensures var t := Apply(cfg, s, step); since <= t.now && id in t.done && since + cfg.doneTTL <= t.done[id]
  {
  }

  /** A done marker only ever moves forward, so it outlives the completion that set it by doneTTL. */
  lemma {:induction false} MarkerPersists(cfg: Config, r: Run, id: string, i: nat, k: nat)
    requires cfg.store.Redis? && IsRun(cfg, r) && i < k < |r.states|
    requires Completes(r.states[i], r.steps[i], id) && StoreReplies(r.steps[i])
    ensures id in r.states[k].done && r.states[i].now + cfg.doneTTL <= r.states[k].done[id]
    ensures r.states[i].now <= r.states[k].now
    decreases k
  {
    if i + 1 < k {
      MarkerPersists(cfg, r, id, i, k - 1);
    }
    MarkerStep(cfg, r.states[k - 1], r.steps[k - 1], id, r.states[i].now);
  }

  /** Any two completions of one event are more than doneTTL apart. */
  ghost predicate CompletionsApart(cfg: Config, r: Run)
    requires |r.states| == |r.steps| + 1
  {
    forall i, j, id | 0 <= i < j < |r.steps| && Completes(r.states[i], r.steps[i], id)
                      && Completes(r.states[j], r.steps[j], id) ::
      r.states[j].now > r.states[i].now + cfg.doneTTL
  }

  lemma TwoCompletionsApart(cfg: Config, r: Run, P: nat, G: nat, i: nat, j: nat, id: string)
    requires LockCovers(cfg, P, G) && IsRun(cfg, r) && AllReply(r) && TimelyRun(r, P, G)
    requires i < j < |r.steps| && Completes(r.states[i], r.steps[i], id) && Completes(r.states[j], r.steps[j], id)
    ensures r.states[j].now > r.states[i].now + cfg.doneTTL
  {
    CompletionInvRun(cfg, r, P, G, j);
    MarkerPersists(cfg, r, id, i, j);
    assert Enabled(cfg, r.states[j], r.steps[j]);
    assert r.states[j].attempts[r.steps[j].a].Holding();
  }

  lemma AtMostOneCompletion(cfg: Config, r: Run, P: nat, G: nat)
    requires LockCovers(cfg, P, G) && IsRun(cfg, r) && AllReply(r) && TimelyRun(r, P, G)
    ensures CompletionsApart(cfg, r)
  {
    forall i, j, id | 0 <= i < j < |r.steps| && Completes(r.states[i], r.steps[i], id)
                      && Completes(r.states[j], r.steps[j], id)
      ensures r.states[j].now > r.states[i].now + cfg.doneTTL
    {
      TwoCompletionsApart(cfg, r, P, G, i, j, id);
    }
  }
}
