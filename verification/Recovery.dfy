/** Crash recovery: how long a lock left behind can hold a message back, counted in reclaims. */
module Recovery {
  import opened Models
  import opened Delivery
  import opened AckSafety

  // ---------------------------------------------------------------- reclaims are spaced

  /** How often entry `m` is reclaimed in steps i .. j-1. */
  ghost function Reclaims(r: Run, m: nat, i: nat, j: nat): nat
    requires i <= j <= |r.steps|
    decreases j
  {
    if i == j then 0 else Reclaims(r, m, i, j - 1) + if r.steps[j - 1] == Reclaim(m) then 1 else 0
  }

  lemma {:induction false} DeliveredBefore(cfg: Config, r: Run, m: nat, k: nat)
    requires IsRun(cfg, r) && k < |r.states|
    ensures m in r.states[k].pending ==> r.states[k].pending[m] <= r.states[k].now
  {
    if k > 0 {
      DeliveredBefore(cfg, r, m, k - 1);
      assert Enabled(cfg, r.states[k - 1], r.steps[k - 1]);
    }
  }

  /** At least `span` has passed since `since`, also up to the last delivery of `m` if it is pending. */
  ghost predicate Spaced(s: State, m: nat, since: nat, span: nat) {
    && m < s.cursor && since + span <= s.now
    && (m in s.pending ==> since + span <= s.pending[m] <= s.now)
  }

  lemma SpacedStep(cfg: Config, s: State, step: Step, m: nat, since: nat, span: nat)
    requires WellFormed(s) && Enabled(cfg, s, step) && Spaced(s, m, since, span)
    ensures Spaced(Apply(cfg, s, step), m, since, span + if step == Reclaim(m) then cfg.claimIdle else 0)
  {
  }

  ghost function ReclaimTime(cfg: Config, r: Run, m: nat, i: nat, j: nat): nat
    requires i <= j <= |r.steps|
    decreases j
  {
    if i == j then 0 else ReclaimTime(cfg, r, m, i, j - 1) + if r.steps[j - 1] == Reclaim(m) then cfg.claimIdle else 0
  }

  lemma {:induction false} ReclaimTimeIs(cfg: Config, r: Run, m: nat, i: nat, j: nat)
    requires i <= j <= |r.steps|
    ensures ReclaimTime(cfg, r, m, i, j) == Reclaims(r, m, i, j) * cfg.claimIdle
    decreases j
  {
    if i < j {
      ReclaimTimeIs(cfg, r, m, i, j - 1);
    }
  }

  lemma {:induction false} SpacedRun(cfg: Config, r: Run, m: nat, i: nat, j: nat)
    requires IsRun(cfg, r) && i <= j < |r.states| && m in r.states[i].pending
    ensures Spaced(r.states[j], m, r.states[i].pending[m], ReclaimTime(cfg, r, m, i, j))
    decreases j
  {
    if i < j {
      SpacedRun(cfg, r, m, i, j - 1);
      WellFormedRun(cfg, r, j - 1);
      SpacedStep(cfg, r.states[j - 1], r.steps[j - 1], m, r.states[i].pending[m], ReclaimTime(cfg, r, m, i, j - 1));
    } else {
      WellFormedRun(cfg, r, i);
      DeliveredBefore(cfg, r, m, i);
    }
  }

  /** Each reclaim restarts the idle time, so n reclaims take n times claimIdle from the last delivery. */
  lemma ReclaimsAreSpaced(cfg: Config, r: Run, m: nat, i: nat, j: nat)
    requires IsRun(cfg, r) && i <= j < |r.states| && m in r.states[i].pending
    ensures r.states[i].pending[m] + Reclaims(r, m, i, j) * cfg.claimIdle <= r.states[j].now
  {
    SpacedRun(cfg, r, m, i, j);
    ReclaimTimeIs(cfg, r, m, i, j);
  }

  // ---------------------------------------------------------------- refusals have a cause

  /** The claim that sets the lock of event `id`. */
  predicate SetsLock(cfg: Config, s: State, step: Step, id: string) {
    ActsFor(s, step, id) && step.call.Claim? && step.call.outcome.Applied() && !LockLive(cfg, s, id)
  }

  predicate Refused(cfg: Config, s: State, step: Step, id: string) {
    ActsFor(s, step, id) && step.call == Claim(Success) && LockLive(cfg, s, id)
  }

  lemma LockStep(cfg: Config, s: State, step: Step, id: string)
    requires Enabled(cfg, s, step)
    ensures var t := Apply(cfg, s, step);
            id in t.locks ==> if SetsLock(cfg, s, step, id) then t.locks[id] == s.now + cfg.lockTTL
              else id in s.locks && t.locks[id] == s.locks[id]
  {
  }

  /** Every lock goes back to the last claim that set it. */
  lemma {:induction false} LockSetter(cfg: Config, r: Run, id: string, k: nat) returns (i: nat)
    requires IsRun(cfg, r) && k < |r.states| && id in r.states[k].locks
    ensures i < k && SetsLock(cfg, r.states[i], r.steps[i], id)
    ensures r.states[k].locks[id] == r.states[i].now + cfg.lockTTL
    ensures forall n :: i < n < k ==> !SetsLock(cfg, r.states[n], r.steps[n], id)
  {
    LockStep(cfg, r.states[k - 1], r.steps[k - 1], id);
    if SetsLock(cfg, r.states[k - 1], r.steps[k - 1], id) {
      i := k - 1;
    } else {
      i := LockSetter(cfg, r, id, k - 1);
    }
  }

  /** No claim sets the lock of `id` strictly between steps p and q. */
  ghost predicate NoClaimBetween(cfg: Config, r: Run, id: string, p: nat, q: nat)
    requires q < |r.states| == |r.steps| + 1
  {
    forall n :: p < n < q ==> !SetsLock(cfg, r.states[n], r.steps[n], id)
  }

  /** A lock refuses nobody once lockTTL has passed since it was set, whatever became of its holder. */
  lemma RefusedOnlyWithinLockTTL(cfg: Config, r: Run, id: string, p: nat, q: nat)
    requires cfg.store.Redis? && IsRun(cfg, r) && p < q < |r.steps|
    requires SetsLock(cfg, r.states[p], r.steps[p], id) && NoClaimBetween(cfg, r, id, p, q)
    requires Refused(cfg, r.states[q], r.steps[q], id)
    ensures r.states[q].now <= r.states[p].now + cfg.lockTTL
  {
    var i := LockSetter(cfg, r, id, q);
    assert i == p;
  }

  /** The first claim after the expiry wins, unless another attempt has claimed since. */
  lemma ClaimAfterExpiryStarts(cfg: Config, r: Run, id: string, p: nat, q: nat)
    requires cfg.store.Redis? && IsRun(cfg, r) && p < q < |r.steps|
    requires SetsLock(cfg, r.states[p], r.steps[p], id) && NoClaimBetween(cfg, r, id, p, q)
    requires ActsFor(r.states[q], r.steps[q], id) && r.steps[q].call.Claim?
             && r.states[q].now > r.states[p].now + cfg.lockTTL
    ensures Starts(cfg, r.states[q], r.steps[q], id)
    ensures r.states[q + 1].attempts[r.steps[q].a].pc == AtArchive
  {
    if Refused(cfg, r.states[q], r.steps[q], id) {
      RefusedOnlyWithinLockTTL(cfg, r, id, p, q);
    }
    assert r.states[q + 1] == Apply(cfg, r.states[q], r.steps[q]);
  }

  // ---------------------------------------------------------------- the recovery bound

  function CeilDiv(x: nat, y: nat): nat
    requires y > 0
  {
    (x + y - 1) / y
  }

  lemma {:induction false} FirstReclaim(r: Run, m: nat, i: nat, j: nat) returns (x: nat)
    requires i <= j <= |r.steps| && Reclaims(r, m, i, j) > 0
    ensures i <= x < j && r.steps[x] == Reclaim(m) && Reclaims(r, m, i, j) == 1 + Reclaims(r, m, x + 1, j)
    decreases j
  {
    if Reclaims(r, m, i, j - 1) > 0 {
      x := FirstReclaim(r, m, i, j - 1);
    } else {
      x := j - 1;
    }
  }

  /** Counted from the first reclaim, one claimIdle fewer must have passed. */
  lemma FromFirstReclaim(cfg: Config, r: Run, m: nat, p: nat, q: nat)
    requires IsRun(cfg, r) && p <= q < |r.states| && Reclaims(r, m, p, q) > 0
    ensures r.states[p].now + (Reclaims(r, m, p, q) - 1) * cfg.claimIdle <= r.states[q].now
  {
    var x := FirstReclaim(r, m, p, q);
    assert r.states[x + 1] == Apply(cfg, r.states[x], r.steps[x]);
    assert r.states[p].now <= r.states[x].now by { ExtendsRun(cfg, Init, r, p, x); }
    ReclaimsAreSpaced(cfg, r, m, x + 1, q);
  }

  lemma FloorBound(n: nat, x: nat, y: nat)
    requires y > 0 && n * y <= x
    ensures n <= x / y
  {
    var k := n - x / y;
    assert k * y <= x % y;
    assert k >= 1 ==> k * y >= y;
  }

  lemma DivBounds(n: nat, x: nat, y: nat)
    requires y > 0
    ensures n * y <= x ==> n <= x / y
    ensures n * y < x + y ==> n <= CeilDiv(x, y)
  {
    if n * y <= x {
      FloorBound(n, x, y);
    }
    if n * y < x + y {
      FloorBound(n, x + y - 1, y);
    }
  }

  /** From step p, a lock is held for `id`; it still refuses at step q; entry `m` was pending when it was taken. */
  ghost predicate HeldBack(cfg: Config, r: Run, id: string, m: nat, p: nat, q: nat) {
    && IsRun(cfg, r) && p < q < |r.steps| && m in r.states[p].pending
    && SetsLock(cfg, r.states[p], r.steps[p], id) && NoClaimBetween(cfg, r, id, p, q)
    && Refused(cfg, r.states[q], r.steps[q], id)
  }

  /**
    While one lock stands, an entry is reclaimed at most lockTTL/claimIdle + 1 times; and at most
    ceil(lockTTL/claimIdle) times when its holder claimed within claimIdle of the entry's delivery.
  */
  lemma ReclaimBound(cfg: Config, r: Run, id: string, m: nat, p: nat, q: nat)
    requires cfg.store.Redis? && cfg.claimIdle > 0 && HeldBack(cfg, r, id, m, p, q)
    ensures Reclaims(r, m, p, q) <= cfg.lockTTL / cfg.claimIdle + 1
    ensures r.states[p].now < r.states[p].pending[m] + cfg.claimIdle ==>
              Reclaims(r, m, p, q) <= CeilDiv(cfg.lockTTL, cfg.claimIdle)
  {
    var n := Reclaims(r, m, p, q);
    RefusedOnlyWithinLockTTL(cfg, r, id, p, q);
    ReclaimsAreSpaced(cfg, r, m, p, q);
    DivBounds(n, cfg.lockTTL, cfg.claimIdle);
    if n > 0 {
      FromFirstReclaim(cfg, r, m, p, q);
      DivBounds(n - 1, cfg.lockTTL, cfg.claimIdle);
    }
  }

  // ---------------------------------------------------------------- rounding

  lemma CeilIs(x: nat, y: nat)
    requires y > 0
    ensures CeilDiv(x, y) == if x % y == 0 then x / y else x / y + 1
  {
    var c := x / y;
    assert x == c * y + x % y;
    assert x + y - 1 == c * y + (x % y + y - 1);
    if x % y == 0 {
      DivMod(x + y - 1, y, c, y - 1);
    } else {
      DivMod(x + y - 1, y, c + 1, x % y - 1);
    }
  }

  lemma DivMod(x: nat, y: nat, c: nat, d: nat)
    requires x == c * y + d && d < y
    ensures x / y == c
  {
    var k := x / y - c;
    assert k * y == d - x % y;
    assert k >= 1 ==> k * y >= y;
    assert k < 0 ==> k * y + y <= 0;
  }
}
