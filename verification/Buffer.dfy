/**
  The Redis stream buffer: consumer-group state changed in place, and the client loops that drop
  malformed entries.  Stream IDs are positions; the group is created before the first entry.
*/
module Buffer {
  import opened Models
  import opened Delivery

  datatype RawMessage = RawMessage(id: nat, event: RawEvent)

  /** The messages that parseXMessage makes of the listed entries, in order. */
  function Parsed(stream: seq<Entry>, ids: seq<nat>): (msgs: seq<RawMessage>)
    requires forall i :: 0 <= i < |ids| ==> ids[i] < |stream|
    ensures forall i :: 0 <= i < |msgs| ==> msgs[i].id in ids && stream[msgs[i].id] == Decodable(msgs[i].event)
    ensures forall i :: 0 <= i < |ids| && stream[ids[i]].Decodable? ==> RawMessage(ids[i], stream[ids[i]].event) in msgs
  {
    if ids == [] then []
    else
      var last := ids[|ids| - 1];
      Parsed(stream, ids[..|ids| - 1]) +
      match ParseXMessage(stream[last])
      case None => []
      case Some(event) => [RawMessage(last, event)]
  }

  function Range(lo: nat, hi: nat): (ids: seq<nat>)
    requires lo <= hi
    ensures |ids| == hi - lo && forall i :: 0 <= i < |ids| ==> ids[i] == lo + i
  {
    if lo == hi then [] else Range(lo, hi - 1) + [hi - 1]
  }

  /** The pending entries below `hi` that have been idle for `minIdle`, oldest ID first. */
  function Idle(pending: map<nat, nat>, minIdle: nat, now: nat, hi: nat): (ids: seq<nat>)
    ensures forall i :: 0 <= i < |ids| ==> ids[i] < hi && ids[i] in pending && pending[ids[i]] + minIdle <= now
    ensures forall i, j :: 0 <= i < j < |ids| ==> ids[i] < ids[j]
    ensures forall m: nat :: m < hi && m in pending && pending[m] + minIdle <= now ==> m in ids
  {
    if hi == 0 then []
    else
      Idle(pending, minIdle, now, hi - 1) +
      if hi - 1 in pending && pending[hi - 1] + minIdle <= now then [hi - 1] else []
  }

  /** The entries that XAUTOCLAIM takes: the first `count` idle ones below the cursor. */
  function Taken(pending: map<nat, nat>, minIdle: nat, now: nat, cursor: nat, count: nat): (ids: seq<nat>)
    ensures forall i :: 0 <= i < |ids| ==> ids[i] < cursor && ids[i] in pending && pending[ids[i]] + minIdle <= now
    ensures forall i, j :: 0 <= i < j < |ids| ==> ids[i] < ids[j]
  {
    var ids := Idle(pending, minIdle, now, cursor);
    if |ids| <= count then ids else ids[..count]
  }

  /** Delivered and not acknowledged, and idle for long enough. */
  predicate Claimable(pending: map<nat, nat>, minIdle: nat, now: nat, cursor: nat, m: nat) {
    m < cursor && m in pending && pending[m] + minIdle <= now
  }

  /**
    Only claimable entries are taken, at most `count`; and if any is left out, `count` are taken,
    all of them older.
  */
  lemma TakenAreOldest(pending: map<nat, nat>, minIdle: nat, now: nat, cursor: nat, count: nat)
    ensures var ids := Taken(pending, minIdle, now, cursor, count);
            && |ids| <= count
            && (forall i :: 0 <= i < |ids| ==> Claimable(pending, minIdle, now, cursor, ids[i]))
            && (forall m: nat :: Claimable(pending, minIdle, now, cursor, m) && m !in ids ==>
                                   |ids| == count && forall i :: 0 <= i < |ids| ==> ids[i] < m)
  {
    var all, ids := Idle(pending, minIdle, now, cursor), Taken(pending, minIdle, now, cursor, count);
    forall m: nat | Claimable(pending, minIdle, now, cursor, m) && m !in ids
      ensures |ids| == count && forall i :: 0 <= i < |ids| ==> ids[i] < m
    {
      var j :| 0 <= j < |all| && all[j] == m;
      assert j >= |ids|;
    }
  }

  /** Every listed entry is handed over at `now`. */
  function Handed(pending: map<nat, nat>, ids: seq<nat>, now: nat): map<nat, nat> {
    if ids == [] then pending else Handed(pending, ids[..|ids| - 1], now)[ids[|ids| - 1] := now]
  }

  /** The listed entries are pending since `now`, all others as before. */
  lemma {:induction false} HandedIs(pending: map<nat, nat>, ids: seq<nat>, now: nat)
    ensures forall m :: m in Handed(pending, ids, now) <==> m in pending || m in ids
    ensures forall m :: m in Handed(pending, ids, now) ==>
                          Handed(pending, ids, now)[m] == if m in ids then now else pending[m]
  {
    if ids != [] {
      HandedIs(pending, ids[..|ids| - 1], now);
      assert ids == ids[..|ids| - 1] + [ids[|ids| - 1]];
    }
  }

  class RedisRawBuffer {
    var stream: seq<Entry>
    /** Whether the consumer group exists, and how many entries preceded it. */
    var grouped: bool
    var start: nat
    var cursor: nat
    var pending: map<nat, nat>
    var acked: set<nat>

    /** Undelivered, pending and acked partition the entries appended since the group was created. */
    ghost predicate Valid()
      reads this
    {
      && start <= cursor <= |stream|
      && (!grouped ==> cursor == 0)
      && pending.Keys !! acked
      && forall m: nat :: start <= m < cursor <==> m in pending || m in acked
    }

    constructor ()
      ensures Valid() && stream == [] && !grouped
    {
      stream, grouped, start, cursor, pending, acked := [], false, 0, 0, map[], {};
    }

    /**
      XGROUP CREATE MKSTREAM at "$".  An existing group answers BUSYGROUP, which is no error here; `fails`
      is any other error, which is passed on whether or not the group exists.
    */
    method EnsureGroup(fails: bool) returns (ok: bool)
      requires Valid()
      modifies this
      ensures Valid() && ok == !fails && grouped == (old(grouped) || ok)
      ensures stream == old(stream) && pending == old(pending) && acked == old(acked)
      ensures (start, cursor) == if ok && !old(grouped) then (|stream|, |stream|) else (old(start), old(cursor))
    {
      if fails {
        return false;
      }
      if !grouped {
        grouped, start, cursor := true, |stream|, |stream|;
      }
      ok := true;
    }

    /** XADD */
    method PublishRaw(event: RawEvent, fails: bool) returns (r: Result<nat>)
      requires Valid()
      modifies this
      ensures Valid() && (r.Ok? <==> !fails) && (r.Ok? ==> r.value == old(|stream|))
      ensures stream == if r.Ok? then old(stream) + [Decodable(event)] else old(stream)
      ensures grouped == old(grouped) && start == old(start) && cursor == old(cursor)
      ensures pending == old(pending) && acked == old(acked)
    {
      if fails {
        return Err("failed to XAdd to stream");
      }
      r := Ok(|stream|);
      stream := stream + [Decodable(event)];
    }

    /** The loop that ReadGroup and ClaimPending share. */
    method ParseAll(ids: seq<nat>) returns (msgs: seq<RawMessage>)
      requires forall i :: 0 <= i < |ids| ==> ids[i] < |stream|
      ensures msgs == Parsed(stream, ids)
    {
      msgs := [];
      for i := 0 to |ids|
        invariant msgs == Parsed(stream, ids[..i])
      {
        assert ids[..i + 1][..i] == ids[..i];
        match ParseXMessage(stream[ids[i]]) {
          case None =>
          case Some(event) => msgs := msgs + [RawMessage(ids[i], event)];
        }
      }
      assert ids[..|ids|] == ids;
    }

    /** XREADGROUP ... ">": the next entries become pending; malformed ones are dropped from the reply only. */
    method ReadGroup(count: nat, now: nat) returns (r: Result<seq<RawMessage>>)
      requires Valid()
      modifies this
      ensures Valid() && stream == old(stream) && acked == old(acked) && start == old(start) && grouped == old(grouped)
      ensures r.Ok? <==> grouped
      ensures cursor == if r.Err? then old(cursor) else if old(cursor) + count <= |stream| then old(cursor) + count
                        else |stream|
      ensures pending == Handed(old(pending), Range(old(cursor), cursor), now)
      ensures r.Ok? ==> r.value == Parsed(stream, Range(old(cursor), cursor))
    {
      if !grouped {
        return Err("NOGROUP");
      }
      var upto := if cursor + count <= |stream| then cursor + count else |stream|;
      var ids := Range(cursor, upto);
      HandedIs(pending, ids, now);
      cursor, pending := upto, Handed(pending, ids, now);
      forall m: nat ensures start <= m < cursor <==> m in pending || m in acked {
        assert m in ids <==> old(cursor) <= m < upto by {
          if old(cursor) <= m < upto {
            assert ids[m - old(cursor)] == m;
          }
        }
      }
      var msgs := ParseAll(ids);
      r := Ok(msgs);
    }

    /** XAUTOCLAIM from the start of the pending list. */
    method ClaimPending(minIdle: nat, count: nat, now: nat) returns (r: Result<seq<RawMessage>>)
      requires Valid()
      modifies this
      ensures Valid() && stream == old(stream) && acked == old(acked)
      ensures cursor == old(cursor) && start == old(start) && grouped == old(grouped)
      ensures r.Ok? <==> grouped
      ensures var ids := Taken(old(pending), minIdle, now, cursor, count);
              && (forall i :: 0 <= i < |ids| ==> ids[i] < |stream|)
              && pending == Handed(old(pending), ids, now) && (r.Ok? ==> r.value == Parsed(stream, ids))
    {
      if !grouped {
        return Err("NOGROUP");
      }
      var ids := Taken(pending, minIdle, now, cursor, count);
      HandedIs(pending, ids, now);
      pending := Handed(pending, ids, now);
      var msgs := ParseAll(ids);
      r := Ok(msgs);
    }

    /** XACK */
    method Ack(id: nat)
      requires Valid()
      modifies this
      ensures Valid() && stream == old(stream) && cursor == old(cursor) && start == old(start)
              && grouped == old(grouped)
      ensures pending == old(pending) - {id}
      ensures acked == if id in old(pending) then old(acked) + {id} else old(acked)
    {
      if id in pending {
        acked := acked + {id};
      }
      pending := pending - {id};
    }
  }

  // ---------------------------------------------------------------- batches as protocol steps

  /** XREADGROUP of `n` entries is `n` deliveries at one instant. */
  function DeliverMany(cfg: Config, s: State, n: nat): (t: State)
    requires s.cursor + n <= |s.stream|
    ensures t.cursor == s.cursor + n && t.stream == s.stream && t.now == s.now
    decreases n
  {
    if n == 0 then s else Apply(cfg, DeliverMany(cfg, s, n - 1), Deliver)
  }

  /** The attempts that handing over the listed entries begins. */
  function Begun(cfg: Config, stream: seq<Entry>, ids: seq<nat>, now: nat): seq<Attempt>
    requires forall i :: 0 <= i < |ids| ==> ids[i] < |stream|
  {
    if ids == [] then []
    else Begun(cfg, stream, ids[..|ids| - 1], now) + Begin(cfg, stream[ids[|ids| - 1]], ids[|ids| - 1], now)
  }

  /** One attempt per message of the reply, in order. */
  lemma {:induction false} BegunByReply(cfg: Config, stream: seq<Entry>, ids: seq<nat>, now: nat)
    requires forall i :: 0 <= i < |ids| ==> ids[i] < |stream|
    ensures var begun, msgs := Begun(cfg, stream, ids, now), Parsed(stream, ids);
            |begun| == |msgs| && forall i :: 0 <= i < |msgs| ==>
                                               begun[i].msg == msgs[i].id && begun[i].event == msgs[i].event
  {
    if ids != [] {
      BegunByReply(cfg, stream, ids[..|ids| - 1], now);
    }
  }

  lemma RangeOneMore(lo: nat, hi: nat)
    requires lo <= hi
    ensures Range(lo, hi + 1) == Range(lo, hi) + [hi]
  {
  }

  lemma HandedOneMore(pending: map<nat, nat>, lo: nat, hi: nat, now: nat)
    requires lo <= hi
    ensures Handed(pending, Range(lo, hi + 1), now) == Handed(pending, Range(lo, hi), now)[hi := now]
  {
    RangeOneMore(lo, hi);
    assert Range(lo, hi + 1)[..hi - lo] == Range(lo, hi);
  }

  lemma BegunOneMore(cfg: Config, stream: seq<Entry>, lo: nat, hi: nat, now: nat)
    requires lo <= hi < |stream|
    ensures Begun(cfg, stream, Range(lo, hi + 1), now)
         == Begun(cfg, stream, Range(lo, hi), now) + Begin(cfg, stream[hi], hi, now)
  {
    RangeOneMore(lo, hi);
    assert Range(lo, hi + 1)[..hi - lo] == Range(lo, hi);
  }

  lemma DeliverOneMore(cfg: Config, s: State, n: nat)
    requires s.cursor + n < |s.stream|
    ensures var m, u, t := s.cursor + n, DeliverMany(cfg, s, n), DeliverMany(cfg, s, n + 1);
            t.pending == u.pending[m := s.now] && t.attempts == u.attempts + Begin(cfg, s.stream[m], m, s.now)
  {
  }

  /** Sequences that grow by the same tail keep their common front. */
  lemma Combine<T>(t: seq<T>, u: seq<T>, a: seq<T>, before: seq<T>, last: seq<T>, all: seq<T>)
    requires t == u + last && u == a + before && all == before + last
    ensures t == a + all
  {
  }

  lemma {:induction false} DeliveriesBegin(cfg: Config, s: State, n: nat)
    requires s.cursor + n <= |s.stream|
    ensures DeliverMany(cfg, s, n).attempts == s.attempts + Begun(cfg, s.stream, Range(s.cursor, s.cursor + n), s.now)
  {
    if n > 0 {
      var m := s.cursor + (n - 1);
      DeliveriesBegin(cfg, s, n - 1);
      DeliverOneMore(cfg, s, n - 1);
      BegunOneMore(cfg, s.stream, s.cursor, m, s.now);
      Combine(DeliverMany(cfg, s, n).attempts, DeliverMany(cfg, s, n - 1).attempts, s.attempts,
              Begun(cfg, s.stream, Range(s.cursor, m), s.now), Begin(cfg, s.stream[m], m, s.now),
              Begun(cfg, s.stream, Range(s.cursor, m + 1), s.now));
    }
  }

  /** `n` deliveries leave the pending list that `Handed` describes. */
  ghost predicate HandsRange(cfg: Config, s: State, n: nat)
    requires s.cursor + n <= |s.stream|
  {
    DeliverMany(cfg, s, n).pending == Handed(s.pending, Range(s.cursor, s.cursor + n), s.now)
  }

  lemma HandsOne(cfg: Config, s: State, n: nat)
    requires s.cursor + n < |s.stream| && HandsRange(cfg, s, n)
    ensures HandsRange(cfg, s, n + 1)
  {
    var m := s.cursor + n;
    var u, before := DeliverMany(cfg, s, n).pending, Handed(s.pending, Range(s.cursor, m), s.now);
    DeliverOneMore(cfg, s, n);
    HandedOneMore(s.pending, s.cursor, m, s.now);
    assert u[m := s.now] == before[m := s.now];
  }

  lemma {:induction false} DeliveriesHand(cfg: Config, s: State, n: nat)
    requires s.cursor + n <= |s.stream|
    ensures HandsRange(cfg, s, n)
  {
    if n > 0 {
      DeliveriesHand(cfg, s, n - 1);
      HandsOne(cfg, s, n - 1);
    }
  }

  /** ReadGroup leaves the pending list, and its reply lists the attempts, that those deliveries make. */
  lemma ReadGroupIsDeliveries(cfg: Config, s: State, n: nat)
    requires s.cursor + n <= |s.stream|
    ensures var ids := Range(s.cursor, s.cursor + n);
            var t := DeliverMany(cfg, s, n);
            t.pending == Handed(s.pending, ids, s.now) && t.attempts == s.attempts + Begun(cfg, s.stream, ids, s.now)
  {
    DeliveriesHand(cfg, s, n);
    DeliveriesBegin(cfg, s, n);
  }

  function ReclaimMany(cfg: Config, s: State, ids: seq<nat>): (t: State)
    requires forall i :: 0 <= i < |ids| ==> ids[i] < |s.stream|
    ensures t.stream == s.stream && t.now == s.now
  {
    if ids == [] then s else Hand(cfg, ReclaimMany(cfg, s, ids[..|ids| - 1]), ids[|ids| - 1])
  }

  lemma {:induction false} ReclaimsHand(cfg: Config, s: State, ids: seq<nat>)
    requires forall i :: 0 <= i < |ids| ==> ids[i] < |s.stream|
    ensures ReclaimMany(cfg, s, ids).pending == Handed(s.pending, ids, s.now)
    ensures ReclaimMany(cfg, s, ids).attempts == s.attempts + Begun(cfg, s.stream, ids, s.now)
  {
    if ids != [] {
      var before, m := ids[..|ids| - 1], ids[|ids| - 1];
      ReclaimsHand(cfg, s, before);
      Combine(ReclaimMany(cfg, s, ids).attempts, ReclaimMany(cfg, s, before).attempts, s.attempts,
              Begun(cfg, s.stream, before, s.now), Begin(cfg, s.stream[m], m, s.now), Begun(cfg, s.stream, ids, s.now));
    }
  }

  /** After `before` has been reclaimed, an entry not in it is as idle as it was. */
  lemma StillIdle(cfg: Config, s: State, before: seq<nat>, m: nat)
    requires cfg.claimIdle > 0 && forall i :: 0 <= i < |before| ==> before[i] < |s.stream| && before[i] != m
    requires m in s.pending && m < |s.stream| && s.pending[m] + cfg.claimIdle <= s.now
    ensures Enabled(cfg, ReclaimMany(cfg, s, before), Reclaim(m))
    ensures ReclaimMany(cfg, s, before + [m]) == Apply(cfg, ReclaimMany(cfg, s, before), Reclaim(m))
  {
    ReclaimsHand(cfg, s, before);
    HandedIs(s.pending, before, s.now);
    assert (before + [m])[..|before|] == before;
  }

  lemma ReclaimsInTurn(cfg: Config, s: State, ids: seq<nat>, i: nat)
    requires cfg.claimIdle > 0 && i < |ids| && forall j :: 0 <= j < |ids| ==> ids[j] < |s.stream|
    requires ids[i] in s.pending && s.pending[ids[i]] + cfg.claimIdle <= s.now && ids[i] !in ids[..i]
    ensures Enabled(cfg, ReclaimMany(cfg, s, ids[..i]), Reclaim(ids[i]))
    ensures ReclaimMany(cfg, s, ids[..i + 1]) == Apply(cfg, ReclaimMany(cfg, s, ids[..i]), Reclaim(ids[i]))
  {
    var before := ids[..i];
    assert forall j :: 0 <= j < |before| ==> before[j] in before;
    StillIdle(cfg, s, before, ids[i]);
    assert ids[..i + 1] == before + [ids[i]];
  }

  /**
    Each entry that ClaimPending takes may be reclaimed in the protocol, also after the ones before
    it; and together these reclaims leave its pending list and begin the attempts of its reply.
  */
  lemma ClaimPendingIsReclaims(cfg: Config, s: State, count: nat, i: nat)
    requires cfg.claimIdle > 0 && s.cursor <= |s.stream|
    requires i < |Taken(s.pending, cfg.claimIdle, s.now, s.cursor, count)|
    ensures var ids := Taken(s.pending, cfg.claimIdle, s.now, s.cursor, count);
            && Enabled(cfg, ReclaimMany(cfg, s, ids[..i]), Reclaim(ids[i]))
            && ReclaimMany(cfg, s, ids[..i + 1]) == Apply(cfg, ReclaimMany(cfg, s, ids[..i]), Reclaim(ids[i]))
            && ReclaimMany(cfg, s, ids).pending == Handed(s.pending, ids, s.now)
            && ReclaimMany(cfg, s, ids).attempts == s.attempts + Begun(cfg, s.stream, ids, s.now)
  {
    var ids := Taken(s.pending, cfg.claimIdle, s.now, s.cursor, count);
    ReclaimsInTurn(cfg, s, ids, i);
    ReclaimsHand(cfg, s, ids);
  }
}
