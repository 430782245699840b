/**
  How many attempts on one entry a lock refuses.  Besides the entry's reclaims while the lock stands,
  the attempts count that were begun before and had not yet claimed when the lock was taken.
*/
module Refusals {
  import opened Models
  import opened Delivery
  import opened AckSafety
  import opened Recovery
  import opened Counting

  predicate RefusedOn(cfg: Config, s: State, step: Step, id: string, m: nat) {
    Refused(cfg, s, step, id) && s.attempts[step.a].msg == m
  }

  /** How many attempts on entry `m` are refused by the lock of `id` in steps i .. j-1. */
  ghost function Refusals(cfg: Config, r: Run, id: string, m: nat, i: nat, j: nat): nat
    requires i <= j < |r.states| == |r.steps| + 1
    decreases j
  {
    if i == j then 0
    else Refusals(cfg, r, id, m, i, j - 1) + if RefusedOn(cfg, r.states[j - 1], r.steps[j - 1], id, m) then 1 else 0
  }

  /** The attempts on `m` that have yet to claim. */
  ghost function Unclaimed(s: State, m: nat): set<nat> {
    set a | 0 <= a < |s.attempts| && s.attempts[a].msg == m
            && (s.attempts[a].pc == AtIsDone || s.attempts[a].pc == AtClaim)
  }

  /** A reclaim begins an attempt that has yet to claim; a refusal ends one; no other step adds any. */
  lemma UnclaimedStep(cfg: Config, s: State, step: Step, id: string, m: nat)
    requires Enabled(cfg, s, step) && m < s.cursor
    ensures (if RefusedOn(cfg, s, step, id, m) then 1 else 0) + |Unclaimed(Apply(cfg, s, step), m)|
         <= |Unclaimed(s, m)| + if step == Reclaim(m) then 1 else 0
  {
    var before, after := Unclaimed(s, m), Unclaimed(Apply(cfg, s, step), m);
    if step == Reclaim(m) {
      SubsetCount(after, before + {|s.attempts|});
    } else if RefusedOn(cfg, s, step, id, m) {
      assert step.a in before;
      SubsetCount(after, before - {step.a});
    } else {
      SubsetCount(after, before);
    }
  }

  /** Step j balances: a refusal ends an attempt that had yet to claim, and only a reclaim adds one. */
  ghost predicate Balances(cfg: Config, r: Run, id: string, m: nat, j: nat)
    requires j < |r.steps| && |r.states| == |r.steps| + 1
  {
    (if RefusedOn(cfg, r.states[j], r.steps[j], id, m) then 1 else 0) + |Unclaimed(r.states[j + 1], m)|
    <= |Unclaimed(r.states[j], m)| + if r.steps[j] == Reclaim(m) then 1 else 0
  }

  lemma {:induction false} BalancesAddUp(cfg: Config, r: Run, id: string, m: nat, i: nat, j: nat)
    requires i <= j < |r.states| == |r.steps| + 1 && forall n :: i <= n < j ==> Balances(cfg, r, id, m, n)
    ensures Refusals(cfg, r, id, m, i, j) + |Unclaimed(r.states[j], m)|
         <= |Unclaimed(r.states[i], m)| + Reclaims(r, m, i, j)
    decreases j
  {
    if i < j {
      BalancesAddUp(cfg, r, id, m, i, j - 1);
      assert Balances(cfg, r, id, m, j - 1);
    }
  }

  /** Every refusal uses up a reclaim or an attempt that had yet to claim at the outset. */
  lemma RefusalsAccount(cfg: Config, r: Run, id: string, m: nat, i: nat, j: nat)
    requires IsRun(cfg, r) && i <= j < |r.states| && m < r.states[i].cursor
    ensures Refusals(cfg, r, id, m, i, j) + |Unclaimed(r.states[j], m)|
         <= |Unclaimed(r.states[i], m)| + Reclaims(r, m, i, j)
  {
    forall n | i <= n < j ensures Balances(cfg, r, id, m, n) {
      ExtendsRun(cfg, Init, r, i, n);
      UnclaimedStep(cfg, r.states[n], r.steps[n], id, m);
    }
    BalancesAddUp(cfg, r, id, m, i, j);
  }

  lemma {:induction false} LastRefusal(cfg: Config, r: Run, id: string, m: nat, i: nat, j: nat) returns (x: nat)
    requires i <= j < |r.states| == |r.steps| + 1 && Refusals(cfg, r, id, m, i, j) > 0
    ensures i <= x < j && RefusedOn(cfg, r.states[x], r.steps[x], id, m)
    ensures Refusals(cfg, r, id, m, i, j) == Refusals(cfg, r, id, m, i, x) + 1
    decreases j
  {
    if RefusedOn(cfg, r.states[j - 1], r.steps[j - 1], id, m) {
      x := j - 1;
    } else {
      x := LastRefusal(cfg, r, id, m, i, j - 1);
    }
  }

  /** A span that begins with a claim has its refusals and reclaims after it. */
  lemma {:induction false} AfterClaim(cfg: Config, r: Run, id: string, m: nat, p: nat, q: nat)
    requires p < q < |r.states| == |r.steps| + 1 && SetsLock(cfg, r.states[p], r.steps[p], id)
    ensures Refusals(cfg, r, id, m, p, q) == Refusals(cfg, r, id, m, p + 1, q)
    ensures Reclaims(r, m, p, q) == Reclaims(r, m, p + 1, q)
    decreases q
  {
    if p + 1 < q {
      AfterClaim(cfg, r, id, m, p, q - 1);
    }
  }

  /** Step p takes the lock of `id` while entry `m` is pending, and no claim takes it again before step q. */
  ghost predicate Stands(cfg: Config, r: Run, id: string, m: nat, p: nat, q: nat) {
    && IsRun(cfg, r) && p < q < |r.states| && m in r.states[p].pending
    && SetsLock(cfg, r.states[p], r.steps[p], id) && NoClaimBetween(cfg, r, id, p, q)
  }

  /**
    One lock refuses at most lockTTL/claimIdle + 1 attempts on an entry beyond those that had yet to
    claim when it was taken; and at most ceil(lockTTL/claimIdle) beyond those when its holder claimed
    within claimIdle of the entry's delivery.
  */
  lemma RefusalBound(cfg: Config, r: Run, id: string, m: nat, p: nat, q: nat)
    requires cfg.store.Redis? && cfg.claimIdle > 0 && Stands(cfg, r, id, m, p, q)
    ensures Refusals(cfg, r, id, m, p, q) <= |Unclaimed(r.states[p + 1], m)| + cfg.lockTTL / cfg.claimIdle + 1
    ensures r.states[p].now < r.states[p].pending[m] + cfg.claimIdle ==>
              Refusals(cfg, r, id, m, p, q) <= |Unclaimed(r.states[p + 1], m)| + CeilDiv(cfg.lockTTL, cfg.claimIdle)
  {
    if Refusals(cfg, r, id, m, p, q) > 0 {
      var x := LastRefusal(cfg, r, id, m, p, q);
      assert x > p;
      AfterClaim(cfg, r, id, m, p, x);
      assert r.states[p + 1].cursor == r.states[p].cursor;
      WellFormedRun(cfg, r, p);
      RefusalsAccount(cfg, r, id, m, p + 1, x);
      OneIsLeft(cfg, r.states[x], r.steps[x], id, m);
      ReclaimBound(cfg, r, id, m, p, x);
    }
  }

  lemma OneIsLeft(cfg: Config, s: State, step: Step, id: string, m: nat)
    requires RefusedOn(cfg, s, step, id, m) && Enabled(cfg, s, step)
    ensures |Unclaimed(s, m)| >= 1
  {
    assert step.a in Unclaimed(s, m);
  }

  // ---------------------------------------------------------------- the bound is attained

  lemma {:induction false} CountsOfPrefix(cfg: Config, r: Run, r': Run, id: string, m: nat, i: nat, j: nat)
    requires i <= j <= |r.steps| && |r.states| == |r.steps| + 1 && |r'.states| == |r'.steps| + 1
    requires r.states <= r'.states && r.steps <= r'.steps
    ensures Refusals(cfg, r', id, m, i, j) == Refusals(cfg, r, id, m, i, j)
    decreases j
  {
    if i < j {
      CountsOfPrefix(cfg, r, r', id, m, i, j - 1);
    }
  }

  /** `e` has been delivered and reclaimed `u` times as early as possible, and nobody has checked it. */
  ghost predicate Untouched(cfg: Config, e: RawEvent, s: State, u: nat) {
    && s.stream == [Decodable(e)] && s.cursor == 1 && s.now == u * cfg.claimIdle && s.pending == map[0 := s.now]
    && s.locks == map[] && s.done == map[] && |s.attempts| == u + 1
    && forall a :: 0 <= a <= u ==> Fresh(e, s.attempts[a])
  }

  predicate Fresh(e: RawEvent, att: Attempt) {
    att.msg == 0 && att.event == e && att.pc == AtIsDone
  }

  lemma {:induction false} UntouchedRun(cfg: Config, e: RawEvent, u: nat) returns (r: Run)
    requires cfg.store.Redis? && cfg.claimIdle > 0
    ensures IsRun(cfg, r) && Untouched(cfg, e, r.states[|r.steps|], u)
  {
    if u == 0 {
      r := Run([Init], []);
      r := Append(cfg, Init, r, Publish(Decodable(e)));
      r := Append(cfg, Init, r, Deliver);
    } else {
      r := UntouchedRun(cfg, e, u - 1);
      assert (u - 1) * cfg.claimIdle + cfg.claimIdle == u * cfg.claimIdle;
      r := Append(cfg, Init, r, Tick(cfg.claimIdle));
      r := Append(cfg, Init, r, Reclaim(0));
    }
  }

  /** The lock on `e` taken at time `since` stands in `s`; attempts i .. n-1 have yet to check. */
  ghost predicate Standing(cfg: Config, e: RawEvent, s: State, since: nat, i: nat, n: nat) {
    && s.stream == [Decodable(e)] && 0 in s.pending && s.now <= since + cfg.lockTTL
    && e.eventId in s.locks && s.locks[e.eventId] == since + cfg.lockTTL && e.eventId !in s.done
    && i <= n == |s.attempts| && forall a :: i <= a < n ==> Fresh(e, s.attempts[a])
  }

  /** A run in which that lock was taken at step p and stands at the end. */
  ghost predicate Refusing(cfg: Config, e: RawEvent, r: Run, p: nat, since: nat, i: nat, n: nat) {
    && Stands(cfg, r, e.eventId, 0, p, |r.steps|) && Standing(cfg, e, r.states[|r.steps|], since, i, n)
  }

  lemma ClaimedRun(cfg: Config, e: RawEvent, u: nat) returns (r: Run, p: nat)
    requires cfg.store.Redis? && cfg.claimIdle > 0
    ensures Refusing(cfg, e, r, p, (u + 1) * cfg.claimIdle, 1, u + 1) && |r.steps| == p + 1
    ensures var s := r.states[p + 1];
            && s.now == (u + 1) * cfg.claimIdle && s.pending == map[0 := u * cfg.claimIdle]
            && s.attempts[0].pc == AtArchive
  {
    r := UntouchedRun(cfg, e, u);
    assert u * cfg.claimIdle + cfg.claimIdle == (u + 1) * cfg.claimIdle;
    r := Append(cfg, Init, r, Tick(cfg.claimIdle));
    r := Append(cfg, Init, r, Act(0, IsDone(false)));
    p := |r.steps|;
    r := Append(cfg, Init, r, Act(0, Claim(Success)));
  }

  /** One more step under the standing lock, which it does not set. */
  lemma StandOn(cfg: Config, e: RawEvent, r: Run, p: nat, step: Step) returns (r': Run)
    requires Stands(cfg, r, e.eventId, 0, p, |r.steps|) && Enabled(cfg, r.states[|r.steps|], step)
    requires !SetsLock(cfg, r.states[|r.steps|], step, e.eventId)
    ensures r' == Run(r.states + [Apply(cfg, r.states[|r.steps|], step)], r.steps + [step])
    ensures Stands(cfg, r', e.eventId, 0, p, |r'.steps|)
    ensures var more := if RefusedOn(cfg, r.states[|r.steps|], step, e.eventId, 0) then 1 else 0;
            Refusals(cfg, r', e.eventId, 0, p, |r'.steps|) == Refusals(cfg, r, e.eventId, 0, p, |r.steps|) + more
  {
    r' := Append(cfg, Init, r, step);
    CountsOfPrefix(cfg, r, r', e.eventId, 0, p, |r.steps|);
  }

  /** Attempt i checks, claims, and is refused. */
  lemma RefuseNext(cfg: Config, e: RawEvent, r: Run, p: nat, since: nat, i: nat, n: nat) returns (r': Run)
    requires cfg.store.Redis? && Refusing(cfg, e, r, p, since, i, n) && i < n
    ensures Refusing(cfg, e, r', p, since, i + 1, n) && r'.states[p + 1] == r.states[p + 1]
    ensures r'.states[|r'.steps|].now == r.states[|r.steps|].now
    ensures r'.states[|r'.steps|].pending == r.states[|r.steps|].pending
    ensures Refusals(cfg, r', e.eventId, 0, p, |r'.steps|) == Refusals(cfg, r, e.eventId, 0, p, |r.steps|) + 1
  {
    r' := StandOn(cfg, e, r, p, Act(i, IsDone(false)));
    r' := StandOn(cfg, e, r', p, Act(i, Claim(Success)));
  }

  lemma {:induction false} RefuseAll(cfg: Config, e: RawEvent, r: Run, p: nat, since: nat, i: nat, n: nat)
    returns (r': Run)
    requires cfg.store.Redis? && Refusing(cfg, e, r, p, since, i, n)
    ensures Refusing(cfg, e, r', p, since, n, n) && r'.states[p + 1] == r.states[p + 1]
    ensures r'.states[|r'.steps|].now == r.states[|r.steps|].now
    ensures r'.states[|r'.steps|].pending == r.states[|r.steps|].pending
    ensures Refusals(cfg, r', e.eventId, 0, p, |r'.steps|) == Refusals(cfg, r, e.eventId, 0, p, |r.steps|) + (n - i)
    decreases n - i
  {
    if i == n {
      r' := r;
    } else {
      r' := RefuseNext(cfg, e, r, p, since, i, n);
      r' := RefuseAll(cfg, e, r', p, since, i + 1, n);
    }
  }

  /** The entry is reclaimed as soon as it is idle, and the new attempt refused. */
  lemma ReclaimAndRefuse(cfg: Config, e: RawEvent, r: Run, p: nat, since: nat, n: nat, now: nat) returns (r': Run)
    requires cfg.store.Redis? && cfg.claimIdle > 0 && Refusing(cfg, e, r, p, since, n, n)
    requires r.states[|r.steps|].now <= now <= since + cfg.lockTTL
    requires r.states[|r.steps|].pending[0] + cfg.claimIdle == now
    ensures Refusing(cfg, e, r', p, since, n + 1, n + 1) && r'.states[p + 1] == r.states[p + 1]
    ensures r'.states[|r'.steps|].now == now && r'.states[|r'.steps|].pending[0] == now
    ensures Refusals(cfg, r', e.eventId, 0, p, |r'.steps|) == Refusals(cfg, r, e.eventId, 0, p, |r.steps|) + 1
  {
    r' := StandOn(cfg, e, r, p, Tick(now - r.states[|r.steps|].now));
    r' := StandOn(cfg, e, r', p, Reclaim(0));
    r' := RefuseNext(cfg, e, r', p, since, n, n + 1);
  }

  /**
    The lock has refused the `u` attempts begun before it was taken and those of `k` reclaims, the
    last made at `last`.
  */
  ghost predicate HasRefused(cfg: Config, e: RawEvent, r: Run, p: nat, since: nat, u: nat, k: nat, last: nat) {
    && Refusing(cfg, e, r, p, since, u + 1 + k, u + 1 + k) && Refusals(cfg, r, e.eventId, 0, p, |r.steps|) == u + k
    && r.states[|r.steps|].pending[0] == last && r.states[|r.steps|].now <= last + cfg.claimIdle
    && var s := r.states[p + 1];
    |s.attempts| == u + 1 && s.attempts[0].pc == AtArchive && forall a :: 1 <= a <= u ==> Fresh(e, s.attempts[a])
  }

  lemma RefuseEarlier(cfg: Config, e: RawEvent, u: nat) returns (r: Run, p: nat)
    requires cfg.store.Redis? && cfg.claimIdle > 0
    ensures HasRefused(cfg, e, r, p, (u + 1) * cfg.claimIdle, u, 0, u * cfg.claimIdle)
  {
    r, p := ClaimedRun(cfg, e, u);
    r := RefuseAll(cfg, e, r, p, (u + 1) * cfg.claimIdle, 1, u + 1);
    assert u * cfg.claimIdle + cfg.claimIdle == (u + 1) * cfg.claimIdle;
  }

  lemma RefuseLater(cfg: Config, e: RawEvent, r: Run, p: nat, since: nat, u: nat, k: nat, last: nat) returns (r': Run)
    requires cfg.store.Redis? && cfg.claimIdle > 0 && HasRefused(cfg, e, r, p, since, u, k, last)
    requires last + cfg.claimIdle <= since + cfg.lockTTL
    ensures HasRefused(cfg, e, r', p, since, u, k + 1, last + cfg.claimIdle)
  {
    r' := ReclaimAndRefuse(cfg, e, r, p, since, u + 1 + k, last + cfg.claimIdle);
  }

  /** `k` reclaims after the claim, each as early as possible and each refused. */
  lemma {:induction false} RefusedReclaims(cfg: Config, e: RawEvent, u: nat, k: nat) returns (r: Run, p: nat)
    requires cfg.store.Redis? && cfg.claimIdle > 0 && k <= cfg.lockTTL / cfg.claimIdle + 1
    ensures HasRefused(cfg, e, r, p, (u + 1) * cfg.claimIdle, u, k, (u + k) * cfg.claimIdle)
  {
    if k == 0 {
      r, p := RefuseEarlier(cfg, e, u);
    } else {
      r, p := RefusedReclaims(cfg, e, u, k - 1);
      Times(u, k, cfg.claimIdle);
      InTime(k, cfg.lockTTL, cfg.claimIdle);
      r := RefuseLater(cfg, e, r, p, (u + 1) * cfg.claimIdle, u, k - 1, (u + k - 1) * cfg.claimIdle);
    }
  }

  lemma Times(u: nat, k: nat, y: nat)
    requires k > 0
    ensures (u + k - 1) * y + y == (u + k) * y == (u + 1) * y + (k - 1) * y
  {
  }

  lemma InTime(k: nat, x: nat, y: nat)
    requires y > 0 && 0 < k <= x / y + 1
    ensures (k - 1) * y <= x
  {
    assert x == (x / y) * y + x % y;
    Ordered(k - 1, x / y, y);
  }

  lemma Ordered(a: nat, b: nat, y: nat)
    requires a <= b
    ensures a * y <= b * y
  {
  }

  ghost function UnclaimedUpTo(s: State, n: nat): set<nat> {
    set a | a in Unclaimed(s, 0) && a <= n
  }

  lemma {:induction false} UnclaimedCount(s: State, e: RawEvent, u: nat, n: nat)
    requires n <= u < |s.attempts| && s.attempts[0].pc == AtArchive
    requires forall a :: 1 <= a <= u ==> Fresh(e, s.attempts[a])
    ensures |UnclaimedUpTo(s, n)| == n
  {
    if n > 0 {
      UnclaimedCount(s, e, u, n - 1);
      assert Fresh(e, s.attempts[n]);
      assert UnclaimedUpTo(s, n) == UnclaimedUpTo(s, n - 1) + {n};
    } else {
      assert UnclaimedUpTo(s, 0) == {};
    }
  }

  /** For every configuration and every number of attempts that have yet to claim, a run attains the bound. */
  lemma RefusalBoundIsAttained(cfg: Config, e: RawEvent, u: nat) returns (r: Run, p: nat)
    requires cfg.store.Redis? && cfg.claimIdle > 0
    ensures Stands(cfg, r, e.eventId, 0, p, |r.steps|) && |Unclaimed(r.states[p + 1], 0)| == u
    ensures Refusals(cfg, r, e.eventId, 0, p, |r.steps|) == u + cfg.lockTTL / cfg.claimIdle + 1
  {
    r, p := RefusedReclaims(cfg, e, u, cfg.lockTTL / cfg.claimIdle + 1);
    var s := r.states[p + 1];
    UnclaimedCount(s, e, u, u);
    assert Unclaimed(s, 0) == UnclaimedUpTo(s, u);
  }

  /** One lock never refuses more than ceil(lockTTL/claimIdle) attempts beyond those that had yet to claim. */
  ghost predicate AlwaysWithinCeil(cfg: Config)
    requires cfg.claimIdle > 0
  {
    forall r, id, m, p, q | Stands(cfg, r, id, m, p, q) ::
      Refusals(cfg, r, id, m, p, q) <= |Unclaimed(r.states[p + 1], m)| + CeilDiv(cfg.lockTTL, cfg.claimIdle)
  }

  /** That holds in every run if and only if claimIdle does not divide lockTTL. */
  lemma CeilBoundExactly(cfg: Config, e: RawEvent)
    requires cfg.store.Redis? && cfg.claimIdle > 0
    ensures AlwaysWithinCeil(cfg) <==> cfg.lockTTL % cfg.claimIdle != 0
  {
    CeilIs(cfg.lockTTL, cfg.claimIdle);
    if cfg.lockTTL % cfg.claimIdle != 0 {
      forall r, id, m, p, q | Stands(cfg, r, id, m, p, q)
        ensures Refusals(cfg, r, id, m, p, q) <= |Unclaimed(r.states[p + 1], m)| + CeilDiv(cfg.lockTTL, cfg.claimIdle)
      {
        RefusalBound(cfg, r, id, m, p, q);
      }
    } else {
      var r, p := RefusalBoundIsAttained(cfg, e, 0);
      assert Stands(cfg, r, e.eventId, 0, p, |r.steps|);
    }
  }
}
