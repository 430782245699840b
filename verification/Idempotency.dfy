/** The two idempotency stores, and how far the memory store mirrors the Redis one. */
module Idempotency {
  import opened Models
  import opened Delivery

  // ---------------------------------------------------------------- the stores as the callers see them

  datatype View = View(locked: set<string>, done: set<string>)

  datatype Op = TryClaim(id: string) | Drop(id: string) | Complete(id: string) | Query(id: string)

  /** The reply and the view after one call; TTLs play no part. */
  function RedisStep(v: View, op: Op): (View, bool) {
    match op
    case TryClaim(id) => (v.(locked := v.locked + {id}), id !in v.locked)
    case Drop(id) => (v.(locked := v.locked - {id}), true)
    case Complete(id) => (v.(done := v.done + {id}), true)
    case Query(id) => (v, id in v.done)
  }

  function MemoryStep(v: View, op: Op): (View, bool) {
    match op
    case TryClaim(id) => (v.(locked := v.locked + {id}), id !in v.locked)
    case Drop(id) => (v.(locked := v.locked - {id}), true)
    case Complete(id) => (View(v.locked - {id}, v.done + {id}), true)
    case Query(id) => (v, id in v.done)
  }

  /** What the callers see of protocol state `s` in which no key has expired. */
  ghost predicate Shows(v: View, s: State) {
    && v.locked == s.locks.Keys && v.done == s.done.Keys
  }

  /** No lock and no marker has expired. */
  ghost predicate Unexpired(cfg: Config, s: State) {
    && (forall id :: id in s.locks ==> LockLive(cfg, s, id))
    && (forall id :: id in s.done ==> DoneLive(cfg, s, id))
  }

  /** Replies and views are those of the protocol's calls, for the Redis store while nothing has expired. */
  lemma RedisStepIsProtocolCall(cfg: Config, s: State, a: nat, v: View)
    requires cfg.store.Redis? && Unexpired(cfg, s) && Shows(v, s) && a < |s.attempts|
    ensures var id := s.attempts[a].event.eventId;
            && Shows(RedisStep(v, TryClaim(id)).0, Effect(cfg, s, a, Claim(Success)))
            && RedisStep(v, TryClaim(id)).1 == !LockLive(cfg, s, id)
            && Shows(RedisStep(v, Drop(id)).0, Effect(cfg, s, a, Release(Success)))
            && Shows(RedisStep(v, Complete(id)).0, Effect(cfg, s, a, Call.MarkDone(Success)))
            && RedisStep(v, Query(id)) == (v, DoneLive(cfg, s, id))
  {
  }

  /** And for the memory store, where nothing ever expires. */
  lemma MemoryStepIsProtocolCall(cfg: Config, s: State, a: nat, v: View)
    requires cfg.store.Memory? && Shows(v, s) && a < |s.attempts|
    ensures var id := s.attempts[a].event.eventId;
            && Shows(MemoryStep(v, TryClaim(id)).0, Effect(cfg, s, a, Claim(Success)))
            && MemoryStep(v, TryClaim(id)).1 == !LockLive(cfg, s, id)
            && Shows(MemoryStep(v, Drop(id)).0, Effect(cfg, s, a, Release(Success)))
            && Shows(MemoryStep(v, Complete(id)).0, Effect(cfg, s, a, Call.MarkDone(Success)))
            && MemoryStep(v, Query(id)) == (v, DoneLive(cfg, s, id))
  {
  }

  class MemoryIdempotencyStore {
    var processing: map<string, bool>
    var done: map<string, bool>

    /** A Go map read of a missing key is false. */
    function Now(): View
      reads this
    {
      View(set id | id in processing && processing[id], set id | id in done && done[id])
    }

    constructor ()
      ensures Now() == View({}, {})
    {
      processing := map[];
      done := map[];
    }

    method TryClaimProcessing(id: string) returns (claimed: bool)
      modifies this
      ensures (Now(), claimed) == MemoryStep(old(Now()), TryClaim(id))
      ensures claimed == (id !in old(Now()).locked) && Now() == View(old(Now()).locked + {id}, old(Now()).done)
    {
      if id in processing && processing[id] {
        assert old(Now()).locked + {id} == old(Now()).locked;
        return false;
      }
      processing := processing[id := true];
      assert Now().locked == old(Now()).locked + {id};
      return true;
    }

    method ReleaseProcessing(id: string)
      modifies this
      ensures Now() == MemoryStep(old(Now()), Drop(id)).0 == View(old(Now()).locked - {id}, old(Now()).done)
    {
      processing := processing - {id};
      assert Now().locked == old(Now()).locked - {id};
    }

    method MarkDone(id: string)
      modifies this
      ensures Now() == MemoryStep(old(Now()), Complete(id)).0 == View(old(Now()).locked - {id}, old(Now()).done + {id})
    {
      done := done[id := true];
      processing := processing - {id};
      assert Now().locked == old(Now()).locked - {id};
      assert Now().done == old(Now()).done + {id};
    }

    method IsDone(id: string) returns (answer: bool)
      ensures (Now(), answer) == MemoryStep(Now(), Query(id)) && answer == (id in Now().done)
    {
      answer := id in done && done[id];
    }
  }

  // ---------------------------------------------------------------- the Redis keys

  datatype Key = ProcKey(id: string) | DoneKey(id: string)

  /** The key as Redis sees it. */
  function Text(key: Key): string {
    match key
    case ProcKey(id) => "ulpf:proc:" + id
    case DoneKey(id) => "ulpf:done:" + id
  }

  /** Locks and markers share one keyspace and never meet, so keys may be told apart by kind and ID. */
  lemma KeysDoNotCollide(x: Key, y: Key)
    ensures Text(x) == Text(y) <==> x == y
  {
    assert Text(x)[5] == if x.ProcKey? then 'p' else 'd';
    assert Text(y)[5] == if y.ProcKey? then 'p' else 'd';
    assert Text(x)[10..] == x.id && Text(y)[10..] == y.id;
  }

  function Lookup<K>(m: map<K, nat>, key: K): Option<nat> {
    if key in m then Some(m[key]) else None
  }

  /** The keyspace holds exactly the locks and markers of protocol state `s`. */
  ghost predicate Represents(keys: map<Key, nat>, s: State) {
    && (forall id :: Lookup(keys, ProcKey(id)) == Lookup(s.locks, id))
    && (forall id :: Lookup(keys, DoneKey(id)) == Lookup(s.done, id))
  }

  /** Changing the lock key of `id` changes that lock and nothing else. */
  lemma LockKeyOnly(keys: map<Key, nat>, keys': map<Key, nat>, s: State, t: State, id: string)
    requires Represents(keys, s) && t.done == s.done
    requires forall key :: key != ProcKey(id) ==> Lookup(keys', key) == Lookup(keys, key)
    requires forall x :: x != id ==> Lookup(t.locks, x) == Lookup(s.locks, x)
    requires Lookup(keys', ProcKey(id)) == Lookup(t.locks, id)
    ensures Represents(keys', t)
  {
  }

  lemma DoneKeyOnly(keys: map<Key, nat>, keys': map<Key, nat>, s: State, t: State, id: string)
    requires Represents(keys, s) && t.locks == s.locks
    requires forall key :: key != DoneKey(id) ==> Lookup(keys', key) == Lookup(keys, key)
    requires forall x :: x != id ==> Lookup(t.done, x) == Lookup(s.done, x)
    requires Lookup(keys', DoneKey(id)) == Lookup(t.done, id)
    ensures Represents(keys', t)
  {
  }

  /**
    The Redis store.  Its methods are given the protocol state `s` and the calling attempt `a` as
    ghosts: the server's keys represent `s` before a call, and the protocol's next state after it.
  */
  class RedisIdempotencyStore {
    /** The server's keys with their expiry times. */
    var keys: map<Key, nat>

    predicate Live(key: Key, now: nat)
      reads this
    {
      key in keys && now <= keys[key]
    }

    constructor ()
      ensures keys == map[] && Represents(keys, Init)
    {
      keys := map[];
    }

    /** SET ulpf:proc:{id} 1 EX ttl NX */
    method TryClaimProcessing(id: string, ttl: nat, now: nat, ghost cfg: Config, ghost s: State, ghost a: nat)
      returns (claimed: bool)
      requires Represents(keys, s) && CallsFor(cfg, s, a, id) && ttl == cfg.lockTTL && now == s.now
      modifies this
      ensures claimed == !LockLive(cfg, s, id)
      ensures keys == if claimed then old(keys)[ProcKey(id) := now + ttl] else old(keys)
      ensures Represents(keys, Effect(cfg, s, a, Claim(Success)))
    {
      assert Lookup(keys, ProcKey(id)) == Lookup(s.locks, id);
      claimed := !Live(ProcKey(id), now);
      if claimed {
        keys := keys[ProcKey(id) := now + ttl];
        LockKeyOnly(old(keys), keys, s, Effect(cfg, s, a, Claim(Success)), id);
      }
    }

    /** DEL ulpf:proc:{id} */
    method ReleaseProcessing(id: string, ghost cfg: Config, ghost s: State, ghost a: nat)
      requires Represents(keys, s) && CallsFor(cfg, s, a, id)
      modifies this
      ensures keys == old(keys) - {ProcKey(id)}
      ensures Represents(keys, Effect(cfg, s, a, Release(Success)))
    {
      keys := keys - {ProcKey(id)};
      LockKeyOnly(old(keys), keys, s, Effect(cfg, s, a, Release(Success)), id);
    }

    /** SET ulpf:done:{id} 1 EX ttl */
    method MarkDone(id: string, ttl: nat, now: nat, ghost cfg: Config, ghost s: State, ghost a: nat)
      requires Represents(keys, s) && CallsFor(cfg, s, a, id) && ttl == cfg.doneTTL && now == s.now
      modifies this
      ensures keys == old(keys)[DoneKey(id) := now + ttl]
      ensures Represents(keys, Effect(cfg, s, a, Call.MarkDone(Success)))
    {
      keys := keys[DoneKey(id) := now + ttl];
      DoneKeyOnly(old(keys), keys, s, Effect(cfg, s, a, Call.MarkDone(Success)), id);
    }

    /** EXISTS ulpf:done:{id} */
    method IsDone(id: string, now: nat, ghost cfg: Config, ghost s: State) returns (answer: bool)
      requires Represents(keys, s) && cfg.store.Redis? && now == s.now
      ensures answer == DoneLive(cfg, s, id)
    {
      assert Lookup(keys, DoneKey(id)) == Lookup(s.done, id);
      answer := Live(DoneKey(id), now);
    }
  }

  /** Attempt `a` is working on event `id` against the Redis store. */
  ghost predicate CallsFor(cfg: Config, s: State, a: nat, id: string) {
    cfg.store.Redis? && a < |s.attempts| && s.attempts[a].event.eventId == id
  }

  // ---------------------------------------------------------------- memory against Redis

  function RedisReplies(v: View, ops: seq<Op>): seq<bool>
    decreases ops
  {
    if ops == [] then [] else [RedisStep(v, ops[0]).1] + RedisReplies(RedisStep(v, ops[0]).0, ops[1..])
  }

  function MemoryReplies(v: View, ops: seq<Op>): seq<bool>
    decreases ops
  {
    if ops == [] then [] else [MemoryStep(v, ops[0]).1] + MemoryReplies(MemoryStep(v, ops[0]).0, ops[1..])
  }

  /** The locks that Redis still keeps for completed events, after one more call. */
  function Stale(v: View, stale: set<string>, op: Op): set<string> {
    match op
    case Complete(id) => if id in v.locked then stale + {id} else stale
    case Drop(id) => stale - {id}
    case _ => stale
  }

  /** Some call claims an event that was completed under its lock and not released since. */
  predicate ClaimsStale(v: View, stale: set<string>, ops: seq<Op>)
    decreases ops
  {
    ops != [] && ((ops[0].TryClaim? && ops[0].id in stale) ||
                  ClaimsStale(RedisStep(v, ops[0]).0, Stale(v, stale, ops[0]), ops[1..]))
  }

  lemma {:induction false} RepliesDifferOnStale(v: View, stale: set<string>, ops: seq<Op>)
    requires stale <= v.locked
    ensures MemoryReplies(View(v.locked - stale, v.done), ops) == RedisReplies(v, ops) <==> !ClaimsStale(v, stale, ops)
    decreases ops
  {
    if ops != [] {
      var op, m := ops[0], View(v.locked - stale, v.done);
      var v', stale' := RedisStep(v, op).0, Stale(v, stale, op);
      var memory, redis := MemoryReplies(m, ops), RedisReplies(v, ops);
      assert memory[0] == MemoryStep(m, op).1 && redis[0] == RedisStep(v, op).1;
      if !(op.TryClaim? && op.id in stale) {
        assert MemoryStep(m, op).0.locked == v'.locked - stale';
        RepliesDifferOnStale(v', stale', ops[1..]);
        assert memory[1..] == MemoryReplies(View(v'.locked - stale', v'.done), ops[1..])
               && redis[1..] == RedisReplies(v', ops[1..]);
      }
    }
  }

  /**
    From equal contents the memory store answers every sequence of calls as a Redis store without
    expiry does, if and only if no call claims an event completed under a lock not released since.
  */
  lemma MemoryMirrorsRedisExactly(v: View, ops: seq<Op>)
    ensures MemoryReplies(v, ops) == RedisReplies(v, ops) <==> !ClaimsStale(v, {}, ops)
  {
    assert View(v.locked - {}, v.done) == v;
    RepliesDifferOnStale(v, {}, ops);
  }
}
