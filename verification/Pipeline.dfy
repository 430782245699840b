/**
  The parts together: what parsing, normalizing and validating one record amounts to, and what of
  it decides whether the record is ever acknowledged.
*/
module Pipeline {
  import opened Models
  import opened Text
  import opened Delivery
  import opened AckSafety
  import opened Archive
  import opened Progress
  import Ingestion
  import Syslog
  import Csv
  import JsonParser
  import opened Convergence
  import opened Normalizer
  import opened Validation

  // ---------------------------------------------------------------- one record, three formats

  ghost predicate IsValid(u: UniversalEvent) {
    Validation.Valid(UniversalSchema, Encode(u))
  }

  /** The canonical event of a parse result. */
  function Canonical(raw: RawEvent, parsed: ParsedEvent, format: string, uuid: string, now: string): UniversalEvent {
    Normalize(raw, Some(parsed), format, uuid, now).value
  }

  /** What a canonical event says, identity, time, source and raw text aside. */
  function RecordOf(u: UniversalEvent): Core {
    Core(u.network, u.event, u.user)
  }

  lemma CanonicalKeepsRecord(raw: RawEvent, parsed: ParsedEvent, format: string, uuid: string, now: string)
    ensures RecordOf(Canonical(raw, parsed, format, uuid, now)) == CoreOf(parsed)
    ensures IsValid(Canonical(raw, parsed, format, uuid, now)) <==> PortsInRange(parsed.network)
  {
    NormalizedIsValidExactly(raw, parsed, format, uuid, now);
  }

  /** One record, parsed and normalized from each of the three formats. */
  datatype Forms = Forms(syslog: UniversalEvent, csv: UniversalEvent, json: UniversalEvent) {
    predicate Agree() {
      RecordOf(syslog) == RecordOf(csv) == RecordOf(json)
    }

    ghost predicate AllValid() {
      IsValid(syslog) && IsValid(csv) && IsValid(json)
    }

    ghost predicate NoneValid() {
      !IsValid(syslog) && !IsValid(csv) && !IsValid(json)
    }
  }

  lemma PortsOf(t: Traffic, p: ParsedEvent)
    requires CoreOf(p) == SyslogCore(t)
    ensures PortsInRange(p.network) <==> t.srcPort <= 65535 && t.dstPort <= 65535
  {
    assert p.network == SyslogCore(t).network;
  }

  lemma NetworkOf(t: Traffic, h: Syslog.Pieces, gaps: (string, string, string), raw: RawEvent, timeOf: string -> string)
    requires Convergence.Valid(t) && Syslog.WellFormed(h) && IsGap(gaps.0) && IsGap(gaps.1) && IsGap(gaps.2)
    requires raw.payload == Syslog.Render(h, Syslog.Body(Items(t, gaps)))
    ensures var s := Syslog.ParseSyslog(raw, timeOf);
            s.Ok? && (PortsInRange(s.value.network) <==> t.srcPort <= 65535 && t.dstPort <= 65535)
  {
    SyslogParses(t, h, gaps, raw, timeOf);
    PortsOf(t, Syslog.ParseSyslog(raw, timeOf).value);
  }

  lemma FormsOf(raws: (RawEvent, RawEvent, RawEvent), s: ParsedEvent, c: ParsedEvent, j: ParsedEvent, uuid: string,
                now: string) returns (f: Forms)
    requires s.network == c.network == j.network
    ensures f == Forms(Canonical(raws.0, s, "syslog", uuid, now), Canonical(raws.1, c, "csv", uuid, now),
                       Canonical(raws.2, j, "json", uuid, now))
    ensures f.Agree() <==> CoreOf(s) == CoreOf(c) == CoreOf(j)
    ensures if PortsInRange(s.network) then f.AllValid() else f.NoneValid()
  {
    f := Forms(Canonical(raws.0, s, "syslog", uuid, now), Canonical(raws.1, c, "csv", uuid, now),
               Canonical(raws.2, j, "json", uuid, now));
    CanonicalKeepsRecord(raws.0, s, "syslog", uuid, now);
    CanonicalKeepsRecord(raws.1, c, "csv", uuid, now);
    CanonicalKeepsRecord(raws.2, j, "json", uuid, now);
  }

  /**
    The three formats of one record become one canonical record if and only if its verb is deny or
    allow; and for every verb either all three documents pass the schema or none does, depending
    only on the two port numbers.
  */
  lemma CanonicalFormsConverge(
    t: Traffic, h: Syslog.Pieces, gaps: (string, string, string), raws: (RawEvent, RawEvent, RawEvent),
    timeOf: string -> string,
    header: seq<string>, row: seq<string>, d: JsonParser.LogRec, shape: Shape, uuid: string, now: string)
    returns (f: Forms)
    requires Convergence.Valid(t) && Syslog.WellFormed(h) && IsGap(gaps.0) && IsGap(gaps.1) && IsGap(gaps.2)
    requires raws.0.payload == Syslog.Render(h, Syslog.Body(Items(t, gaps)))
    requires Tabulates(header, row, t) && TrimSpace(raws.1.payload) != ""
    requires Encodes(d, t, shape) && TrimSpace(raws.2.payload) != ""
    ensures var s, c, j := Syslog.ParseSyslog(raws.0, timeOf), Csv.ParseCsv(raws.1, Some([header, row]), now),
                           JsonParser.ParseJson(raws.2, Some(d), now);
            && s.Ok? && c.Ok? && j.Ok?
            && f == Forms(Canonical(raws.0, s.value, "syslog", uuid, now), Canonical(raws.1, c.value, "csv", uuid, now),
                          Canonical(raws.2, j.value, "json", uuid, now))
    ensures f.Agree() <==> ToLower(t.verb) == "deny" || ToLower(t.verb) == "allow"
    ensures if t.srcPort <= 65535 && t.dstPort <= 65535 then f.AllValid() else f.NoneValid()
  {
    FormatsConvergeExactly(t, h, gaps, raws, timeOf, header, row, d, shape, now);
    NetworkOf(t, h, gaps, raws.0, timeOf);
    f := FormsOf(raws, Syslog.ParseSyslog(raws.0, timeOf).value, Csv.ParseCsv(raws.1, Some([header, row]), now).value,
                 JsonParser.ParseJson(raws.2, Some(d), now).value, uuid, now);
  }

  // ---------------------------------------------------------------- validation

  /**
    Validation does not gate completion: a syslog record with a port beyond 65535 parses, its
    canonical event fails the schema, and it is acknowledged all the same.
  */
  lemma InvalidEventIsAcked(
    cfg: Config, t: Traffic, h: Syslog.Pieces, gaps: (string, string, string), raw: RawEvent,
    timeOf: string -> string, uuid: string, now: string)
    requires Convergence.Valid(t) && (t.srcPort > 65535 || t.dstPort > 65535)
    requires Syslog.WellFormed(h) && IsGap(gaps.0) && IsGap(gaps.1) && IsGap(gaps.2)
    requires raw.payload == Syslog.Render(h, Syslog.Body(Items(t, gaps)))
    requires cfg.parses(raw.payload, raw.format) <==> Syslog.ParseSyslog(raw, timeOf).Ok?
    ensures Syslog.ParseSyslog(raw, timeOf).Ok?
    ensures !IsValid(Canonical(raw, Syslog.ParseSyslog(raw, timeOf).value, "syslog", uuid, now))
    ensures Ackable(cfg, raw)
  {
    NetworkOf(t, h, gaps, raw, timeOf);
    CanonicalKeepsRecord(raw, Syslog.ParseSyslog(raw, timeOf).value, "syslog", uuid, now);
    AckableExactly(cfg, raw);
  }

  // ---------------------------------------------------------------- from request to archive

  /**
    From request to archive: whatever calls of the ingestion service built the stream, with pairwise
    distinct UUIDs, every acknowledged entry is a published request, and the raw store holds its event
    with its exact payload, then and later, if and only if a Put for it took effect.
  */
  lemma IngestedPayloadIsStored(cfg: Config, r: Run, k: nat, later: nat, m: nat, calls: seq<Ingestion.IngestCall>)
    requires forall i :: 0 <= i < |calls| ==> Ingestion.WellSupplied(calls[i])
    requires Ingestion.DistinctUuids(Ingestion.AllWorlds(calls))
    requires IsRun(cfg, r) && k <= later < |r.states| && r.states[later].stream == Ingestion.AfterCalls(calls)
    requires m in r.states[k].acked
    ensures m < |Ingestion.AllIssued(calls)|
    ensures var issue, archive := Ingestion.AllIssued(calls)[m], r.states[later].archive;
            var event := Ingestion.MakeEvent(issue.req, issue.w);
            && (event.eventId in archive <==> SomePut(r, event.eventId, later))
            && (event.eventId in archive ==> archive[event.eventId] == event && event.payload == issue.req.payload)
  {
    var issues, stream := Ingestion.AllIssued(calls), r.states[later].stream;
    Ingestion.HistoryIsIssued(calls);
    assert stream == Ingestion.EntriesOf(issues);
    forall i, j | 0 <= i < j < |stream| ensures stream[i].event.eventId != stream[j].event.eventId {
      Ingestion.FreshIdsAreDistinct(calls, i, j);
    }
    AckedIsArchivedExactly(cfg, r, k, m, later);
    StoredExactly(cfg, r, later, stream[m].event.eventId);
  }
}
