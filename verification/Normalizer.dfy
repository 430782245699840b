/** The normalizer: one canonical event out of a raw event and what a parser made of it. */
module Normalizer {
  import opened Models

  /** `uuid` and `now` are the generated identifier and the clock; `parsed` is a pointer, `None` is nil. */
  function Normalize(raw: RawEvent, parsed: Option<ParsedEvent>, detected: string, uuid: string,
                     now: string): (r: Result<UniversalEvent>)
    ensures r.Ok? <==> parsed.Some?
  {
    match parsed
    case None => Err("cannot normalize nil parsed event")
    case Some(p) =>
      var eventId := if raw.eventId == "" then "evt_" + uuid else raw.eventId;
      var received := if p.timestamp == "" then raw.receivedAt else p.timestamp;
      var timestamp := if received == "" then now else received;
      var hinted := if detected == "" then raw.format else detected;
      var format := if hinted == "" then "unknown" else hinted;
      Ok(UniversalEvent(eventId, "1.0", timestamp, p.source, p.event, p.network, p.user,
                        RawInfo(format, raw.payload), MetadataInfo("1.0", now)))
  }

  /** The first choice that is not empty, or the empty string. */
  function FirstNonEmpty(choices: seq<string>): string {
    if choices == [] then "" else if choices[0] != "" then choices[0] else FirstNonEmpty(choices[1..])
  }

  /**
    Every field is the first non-empty one of its candidates, the parsed fields and the payload
    pass through untouched, and neither identifier nor format ever ends up empty.
  */
  lemma NormalizeFillsGaps(raw: RawEvent, p: ParsedEvent, detected: string, uuid: string, now: string)
    ensures var u := Normalize(raw, Some(p), detected, uuid, now).value;
            && u.eventId == FirstNonEmpty([raw.eventId, "evt_" + uuid]) && u.eventId != ""
            && u.timestamp == FirstNonEmpty([p.timestamp, raw.receivedAt, now])
            && u.raw.format == FirstNonEmpty([detected, raw.format, "unknown"]) && u.raw.format != ""
            && ParsedEvent(p.timestamp, u.source, u.event, u.network, u.user) == p
            && u.raw.message == raw.payload && u.metadata == MetadataInfo("1.0", now) && u.schemaVersion == "1.0"
  {
    FirstOfTwo(raw.eventId, "evt_" + uuid);
    FirstOfThree(p.timestamp, raw.receivedAt, now);
    FirstOfThree(detected, raw.format, "unknown");
  }

  lemma FirstOfTwo(a: string, b: string)
    ensures FirstNonEmpty([a, b]) == if a != "" then a else b
  {
    assert [a, b][1..] == [b] && [b][1..] == [];
    assert FirstNonEmpty([b]) == b;
  }

  lemma FirstOfThree(a: string, b: string, c: string)
    ensures FirstNonEmpty([a, b, c]) == if a != "" then a else if b != "" then b else c
  {
    assert [a, b, c][1..] == [b, c];
    FirstOfTwo(b, c);
  }
}
