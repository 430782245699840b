/** The ingestion service in front of the stream.  Generated UUIDs and clock readings are parameters. */
module Ingestion {
  import opened Models
  import opened Delivery
  import opened Buffer

  datatype IngestRequest = IngestRequest(format: string, source: string, payload: string)

  /** What the outside world supplies for one event: its UUID, the time, and whether XADD fails. */
  datatype World = World(uuid: string, now: string, publishFails: bool)

  function MakeEvent(req: IngestRequest, w: World): RawEvent {
    RawEvent("evt_" + w.uuid, w.now, req.format, req.source, req.payload)
  }

  /** The entry holds the request as it was made, under a generated ID, with the time of its ingestion. */
  predicate Holds(entry: Entry, req: IngestRequest, w: World) {
    && entry.Decodable?
    && entry.event.eventId == "evt_" + w.uuid && entry.event.receivedAt == w.now
    && entry.event.format == req.format && entry.event.source == req.source && entry.event.payload == req.payload
  }

  function MakeAll(reqs: seq<IngestRequest>, ws: seq<World>): (entries: seq<Entry>)
    requires |reqs| <= |ws|
    ensures |entries| == |reqs|
    ensures forall i :: 0 <= i < |reqs| ==> entries[i] == Decodable(MakeEvent(reqs[i], ws[i]))
  {
    seq(|reqs|, i requires 0 <= i < |reqs| => Decodable(MakeEvent(reqs[i], ws[i])))
  }

  predicate AllHavePayload(reqs: seq<IngestRequest>) {
    forall i :: 0 <= i < |reqs| ==> reqs[i].payload != ""
  }

  /** How many of the first |reqs| publications go through before one fails. */
  function Published(reqs: seq<IngestRequest>, ws: seq<World>): (n: nat)
    requires |reqs| <= |ws|
    ensures n <= |reqs|
    ensures forall i :: 0 <= i < n ==> !ws[i].publishFails
    ensures n < |reqs| ==> ws[n].publishFails
  {
    if reqs == [] then 0
    else
      var n := Published(reqs[..|reqs| - 1], ws);
      if n == |reqs| - 1 && !ws[n].publishFails then |reqs| else n
  }

  /** A single call on a stream that reads `entries`: the stream after it, and its answer. */
  function IngestOne(entries: seq<Entry>, req: IngestRequest, w: World): (seq<Entry>, Result<string>) {
    if req.payload == "" then (entries, Err("payload must not be empty"))
    else if w.publishFails then (entries, Err("failed to buffer raw event to Redis"))
    else (entries + [Decodable(MakeEvent(req, w))], Ok(MakeEvent(req, w).eventId))
  }

  /** Single calls from left to right, up to the first that fails. */
  function IngestEach(entries: seq<Entry>, reqs: seq<IngestRequest>, ws: seq<World>): (seq<Entry>, Result<seq<string>>)
    requires |reqs| <= |ws|
  {
    if reqs == [] then (entries, Ok([]))
    else
      var (before, ids) := IngestEach(entries, reqs[..|reqs| - 1], ws);
      match ids
      case Err(_) => (before, ids)
      case Ok(known) =>
        var (after, id) := IngestOne(before, reqs[|reqs| - 1], ws[|reqs| - 1]);
        (after, match id case Ok(last) => Ok(known + [last]) case Err(reason) => Err(reason))
  }

  /** What fails early fails in the end, in the same way. */
  lemma {:induction false} EachStops(entries: seq<Entry>, reqs: seq<IngestRequest>, ws: seq<World>, i: nat)
    requires i <= |reqs| <= |ws| && IngestEach(entries, reqs[..i], ws).1.Err?
    ensures IngestEach(entries, reqs, ws) == IngestEach(entries, reqs[..i], ws)
  {
    if i == |reqs| {
      assert reqs[..i] == reqs;
    } else {
      var rest := reqs[..|reqs| - 1];
      assert rest[..i] == reqs[..i];
      EachStops(entries, rest, ws, i);
    }
  }

  class IngestionService {
    const rawBuffer: RedisRawBuffer?

    constructor (rawBuffer: RedisRawBuffer?)
      ensures this.rawBuffer == rawBuffer
    {
      this.rawBuffer := rawBuffer;
    }

    method Ingest(req: IngestRequest, w: World) returns (r: Result<string>)
      requires rawBuffer != null ==> rawBuffer.Valid()
      modifies rawBuffer
      ensures r.Ok? <==> req.payload != "" && (rawBuffer != null ==> !w.publishFails)
      ensures r.Ok? ==> r.value == "evt_" + w.uuid
      ensures rawBuffer != null && r.Ok? ==>
                && |rawBuffer.stream| == |old(rawBuffer.stream)| + 1 && old(rawBuffer.stream) <= rawBuffer.stream
                && Holds(rawBuffer.stream[|old(rawBuffer.stream)|], req, w)
      ensures rawBuffer != null && r.Err? ==> rawBuffer.stream == old(rawBuffer.stream)
      ensures rawBuffer != null ==> rawBuffer.stream == After(old(rawBuffer.stream), Single(req, w))
      ensures rawBuffer == null ==> r == IngestOne([], req, w.(publishFails := false)).1
      ensures rawBuffer != null ==>
                rawBuffer.Valid() && (rawBuffer.stream, r) == IngestOne(old(rawBuffer.stream), req, w)
    {
      if req.payload == "" {
        return Err("payload must not be empty");
      }
      var event := MakeEvent(req, w);
      if rawBuffer != null {
        var published := rawBuffer.PublishRaw(event, w.publishFails);
        if published.Err? {
          return Err("failed to buffer raw event to Redis");
        }
      }
      r := Ok(event.eventId);
    }

    /**
      All requests are checked before the first is published, so an invalid batch leaves the stream
      alone; a valid one does to the stream, and answers, what single calls from left to right would.
    */
    method IngestBatch(reqs: seq<IngestRequest>, ws: seq<World>) returns (r: Result<seq<string>>)
      requires |reqs| <= |ws| && (rawBuffer != null ==> rawBuffer.Valid())
      modifies rawBuffer
      ensures reqs == [] || !AllHavePayload(reqs) ==>
                r.Err? && (rawBuffer != null ==> rawBuffer.stream == old(rawBuffer.stream))
      ensures reqs != [] && AllHavePayload(reqs) ==>
                if rawBuffer != null then (rawBuffer.stream, r) == IngestEach(old(rawBuffer.stream), reqs, ws)
                else r == Ok(IdsOf(reqs, ws))
      ensures r.Ok? <==> reqs != [] && AllHavePayload(reqs) && (rawBuffer != null ==> Published(reqs, ws) == |reqs|)
      ensures r.Ok? ==> |r.value| == |reqs| && forall i :: 0 <= i < |reqs| ==> r.value[i] == "evt_" + ws[i].uuid
      ensures rawBuffer != null && reqs != [] && AllHavePayload(reqs) ==>
                var n := |old(rawBuffer.stream)|;
                && |rawBuffer.stream| == n + Published(reqs, ws) && old(rawBuffer.stream) <= rawBuffer.stream
                && forall i :: 0 <= i < Published(reqs, ws) ==> Holds(rawBuffer.stream[n + i], reqs[i], ws[i])
      ensures rawBuffer != null ==>
                rawBuffer.Valid() && rawBuffer.stream == After(old(rawBuffer.stream), Many(reqs, ws))
    {
      if reqs == [] {
        return Err("batch must not be empty");
      }
      for i := 0 to |reqs|
        invariant AllHavePayload(reqs[..i])
        invariant rawBuffer != null ==> rawBuffer.Valid() && rawBuffer.stream == old(rawBuffer.stream)
      {
        if reqs[i].payload == "" {
          return Err("item has empty payload");
        }
        assert forall j :: 0 <= j < |reqs[..i + 1]| ==> reqs[..i + 1][j] == reqs[j];
      }
      assert reqs[..|reqs|] == reqs;
      r := PublishAll(reqs, ws);
      if rawBuffer != null {
        BatchIsSingles(old(rawBuffer.stream), reqs, ws);
      }
    }

    /** The publishing loop of IngestBatch. */
    method PublishAll(reqs: seq<IngestRequest>, ws: seq<World>) returns (r: Result<seq<string>>)
      requires |reqs| <= |ws| && AllHavePayload(reqs) && (rawBuffer != null ==> rawBuffer.Valid())
      modifies rawBuffer
      ensures rawBuffer == null ==> r == Ok(IdsOf(reqs, ws))
      ensures rawBuffer != null ==>
                rawBuffer.Valid() && (rawBuffer.stream, r) == IngestEach(old(rawBuffer.stream), reqs, ws)
    {
      var eventIds: seq<string> := [];
      for i := 0 to |reqs|
        invariant eventIds == IdsOf(reqs, ws)[..i]
        invariant rawBuffer != null ==> rawBuffer.Valid()
        invariant rawBuffer != null ==>
            IngestEach(old(rawBuffer.stream), reqs[..i], ws) == (rawBuffer.stream, Ok(eventIds))
      {
        var event := MakeEvent(reqs[i], ws[i]);
        if rawBuffer != null {
          assert reqs[..i + 1][..i] == reqs[..i];
          var published := rawBuffer.PublishRaw(event, ws[i].publishFails);
          if published.Err? {
            EachStops(old(rawBuffer.stream), reqs, ws, i + 1);
            return Err("failed to buffer raw event to Redis");
          }
        }
        eventIds := eventIds + [event.eventId];
      }
      assert reqs[..|reqs|] == reqs && IdsOf(reqs, ws)[..|reqs|] == IdsOf(reqs, ws);
      r := Ok(eventIds);
    }
  }

  function IdsOf(reqs: seq<IngestRequest>, ws: seq<World>): (ids: seq<string>)
    requires |reqs| <= |ws|
    ensures |ids| == |reqs| && forall i :: 0 <= i < |ids| ==> ids[i] == MakeEvent(reqs[i], ws[i]).eventId
  {
    seq(|reqs|, i requires 0 <= i < |reqs| => MakeEvent(reqs[i], ws[i]).eventId)
  }

  /**
    What a valid batch publishes: all its events with their requests' payloads if no publication
    fails, and exactly the first k if the first to fail is the one at index k.
  */
  lemma {:induction false} BatchIsSingles(entries: seq<Entry>, reqs: seq<IngestRequest>, ws: seq<World>)
    requires |reqs| <= |ws| && AllHavePayload(reqs)
    ensures var (after, ids) := IngestEach(entries, reqs, ws);
            && after == entries + MakeAll(reqs, ws)[..Published(reqs, ws)]
            && (forall i :: 0 <= i < Published(reqs, ws) ==> Holds(after[|entries| + i], reqs[i], ws[i]))
            && ids == if Published(reqs, ws) == |reqs| then Ok(IdsOf(reqs, ws))
                      else Err("failed to buffer raw event to Redis")
  {
    if reqs != [] {
      var rest := reqs[..|reqs| - 1];
      BatchIsSingles(entries, rest, ws);
      assert MakeAll(reqs, ws)[..|rest|] == MakeAll(rest, ws);
      var n := Published(rest, ws);
      assert MakeAll(rest, ws)[..n] == MakeAll(reqs, ws)[..n];
      if Published(reqs, ws) == |reqs| {
        assert MakeAll(reqs, ws)[..|reqs|] == MakeAll(rest, ws)[..n] + [Decodable(MakeEvent(reqs[|rest|], ws[|rest|]))];
        assert IdsOf(reqs, ws) == IdsOf(rest, ws) + [MakeEvent(reqs[|rest|], ws[|rest|]).eventId];
      }
    }
  }

  // ---------------------------------------------------------------- a history of calls

  datatype IngestCall = Single(req: IngestRequest, w: World) | Many(reqs: seq<IngestRequest>, ws: seq<World>)

  predicate WellSupplied(call: IngestCall) {
    call.Many? ==> |call.reqs| <= |call.ws|
  }

  /** The stream after one call of either method. */
  function After(entries: seq<Entry>, call: IngestCall): seq<Entry>
    requires WellSupplied(call)
  {
    match call
    case Single(req, w) => IngestOne(entries, req, w).0
    case Many(reqs, ws) => if reqs == [] || !AllHavePayload(reqs) then entries else IngestEach(entries, reqs, ws).0
  }

  /** The stream that a history of calls, successful or not, leaves behind. */
  function AfterCalls(calls: seq<IngestCall>): seq<Entry>
    requires forall i :: 0 <= i < |calls| ==> WellSupplied(calls[i])
  {
    if calls == [] then [] else After(AfterCalls(calls[..|calls| - 1]), calls[|calls| - 1])
  }

  /** A request that was published, and what the world supplied for it. */
  datatype Issue = Issue(req: IngestRequest, w: World)

  function Issued(call: IngestCall): (issues: seq<Issue>)
    requires WellSupplied(call)
    ensures |issues| <= |WorldsOf(call)| && forall i :: 0 <= i < |issues| ==> issues[i].w == WorldsOf(call)[i]
  {
    match call
    case Single(req, w) => if req.payload == "" || w.publishFails then [] else [Issue(req, w)]
    case Many(reqs, ws) =>
      if reqs == [] || !AllHavePayload(reqs) then []
      else seq(Published(reqs, ws), i requires 0 <= i < Published(reqs, ws) => Issue(reqs[i], ws[i]))
  }

  function AllIssued(calls: seq<IngestCall>): seq<Issue>
    requires forall i :: 0 <= i < |calls| ==> WellSupplied(calls[i])
  {
    if calls == [] then [] else AllIssued(calls[..|calls| - 1]) + Issued(calls[|calls| - 1])
  }

  function WorldsOf(call: IngestCall): seq<World> {
    match call
    case Single(_, w) => [w]
    case Many(_, ws) => ws
  }

  function AllWorlds(calls: seq<IngestCall>): seq<World> {
    if calls == [] then [] else AllWorlds(calls[..|calls| - 1]) + WorldsOf(calls[|calls| - 1])
  }

  function EntriesOf(issues: seq<Issue>): (entries: seq<Entry>)
    ensures |entries| == |issues|
    ensures forall i :: 0 <= i < |entries| ==> entries[i] == Decodable(MakeEvent(issues[i].req, issues[i].w))
  {
    seq(|issues|, i requires 0 <= i < |issues| => Decodable(MakeEvent(issues[i].req, issues[i].w)))
  }

  lemma AfterIsIssued(entries: seq<Entry>, call: IngestCall)
    requires WellSupplied(call)
    ensures After(entries, call) == entries + EntriesOf(Issued(call))
  {
    if call.Many? && call.reqs != [] && AllHavePayload(call.reqs) {
      BatchIsSingles(entries, call.reqs, call.ws);
      assert MakeAll(call.reqs, call.ws)[..Published(call.reqs, call.ws)] == EntriesOf(Issued(call));
    }
  }

  lemma EntriesOfBoth(a: seq<Issue>, b: seq<Issue>)
    ensures EntriesOf(a + b) == EntriesOf(a) + EntriesOf(b)
  {
  }

  /** Whatever the calls were, the stream holds exactly the published requests, in order. */
  lemma {:induction false} HistoryIsIssued(calls: seq<IngestCall>)
    requires forall i :: 0 <= i < |calls| ==> WellSupplied(calls[i])
    ensures AfterCalls(calls) == EntriesOf(AllIssued(calls))
    ensures forall n :: 0 <= n < |AllIssued(calls)| ==>
                          Holds(AfterCalls(calls)[n], AllIssued(calls)[n].req, AllIssued(calls)[n].w)
  {
    if calls != [] {
      var before, last := calls[..|calls| - 1], calls[|calls| - 1];
      HistoryIsIssued(before);
      AfterIsIssued(AfterCalls(before), last);
      EntriesOfBoth(AllIssued(before), Issued(last));
    }
  }

  ghost predicate DistinctUuids(ws: seq<World>) {
    forall i, j :: 0 <= i < j < |ws| ==> ws[i].uuid != ws[j].uuid
  }

  /** The issues draw on these worlds, each on one of its own. */
  ghost predicate DrawOn(issues: seq<Issue>, ws: seq<World>) {
    && (forall n :: 0 <= n < |issues| ==> issues[n].w in ws)
    && forall m, n :: 0 <= m < n < |issues| ==> issues[m].w.uuid != issues[n].w.uuid
  }

  lemma DrawOnMore(issues: seq<Issue>, ws: seq<World>, more: seq<Issue>, later: seq<World>)
    requires DistinctUuids(ws + later) && DrawOn(issues, ws)
    requires |more| <= |later| && forall i :: 0 <= i < |more| ==> more[i].w == later[i]
    ensures DrawOn(issues + more, ws + later)
  {
    var all, worlds := issues + more, ws + later;
    forall n | 0 <= n < |all| ensures all[n].w in worlds {
      assert n >= |issues| ==> worlds[|ws| + (n - |issues|)] == all[n].w;
    }
    forall m, n | 0 <= m < n < |all| ensures all[m].w.uuid != all[n].w.uuid {
      if n >= |issues| {
        var j := |ws| + (n - |issues|);
        assert worlds[j] == all[n].w;
        if m >= |issues| {
          assert worlds[|ws| + (m - |issues|)] == all[m].w;
        } else {
          var i :| 0 <= i < |ws| && ws[i] == issues[m].w;
          assert worlds[i] == all[m].w;
        }
      }
    }
  }

  lemma DistinctUuidsBefore(ws: seq<World>, later: seq<World>)
    requires DistinctUuids(ws + later)
    ensures DistinctUuids(ws)
  {
    assert forall i :: 0 <= i < |ws| ==> (ws + later)[i] == ws[i];
  }

  /** Distinct UUIDs over all calls give the published requests distinct ones. */
  lemma {:induction false} IssuedUuids(calls: seq<IngestCall>)
    requires (forall i :: 0 <= i < |calls| ==> WellSupplied(calls[i])) && DistinctUuids(AllWorlds(calls))
    ensures DrawOn(AllIssued(calls), AllWorlds(calls))
  {
    if calls != [] {
      var before, last := calls[..|calls| - 1], calls[|calls| - 1];
      DistinctUuidsBefore(AllWorlds(before), WorldsOf(last));
      IssuedUuids(before);
      DrawOnMore(AllIssued(before), AllWorlds(before), Issued(last), WorldsOf(last));
    }
  }

  /** So every published event has an ID of its own, and none an empty one. */
  lemma FreshIdsAreDistinct(calls: seq<IngestCall>, m: nat, n: nat)
    requires (forall i :: 0 <= i < |calls| ==> WellSupplied(calls[i])) && DistinctUuids(AllWorlds(calls))
    requires m < |AllIssued(calls)| && n < |AllIssued(calls)| && m != n
    ensures MakeEvent(AllIssued(calls)[m].req, AllIssued(calls)[m].w).eventId
         != MakeEvent(AllIssued(calls)[n].req, AllIssued(calls)[n].w).eventId
  {
    IssuedUuids(calls);
    var x, y := AllIssued(calls)[m], AllIssued(calls)[n];
    assert MakeEvent(x.req, x.w).eventId[4..] == x.w.uuid && MakeEvent(y.req, y.w).eventId[4..] == y.w.uuid;
  }
}
