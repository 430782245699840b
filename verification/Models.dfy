/** The records of internal/models/event.go, and the two wrappers the other modules share. */
module Models {

  datatype Option<+T> = None | Some(value: T)

  datatype Result<+T> = Ok(value: T) | Err(reason: string)

  /** An unparsed log line as the ingestion service buffers it. */
  datatype RawEvent = RawEvent(eventId: string, receivedAt: string, format: string, source: string, payload: string)

  datatype SourceInfo = SourceInfo(kind: string, vendor: string, product: string, identifier: string)

  datatype EventInfo = EventInfo(category: string, action: string, severity: string)

  /** Ports are pointers in the source: `None` is nil. */
  datatype NetworkInfo = NetworkInfo(srcIp: string, srcPort: Option<int>, dstIp: string, dstPort: Option<int>,
                                     protocol: string)

  datatype UserInfo = UserInfo(username: Option<string>)

  datatype ParsedEvent = ParsedEvent(
    timestamp: string, source: SourceInfo, event: EventInfo, network: Option<NetworkInfo>, user: Option<UserInfo>)

  datatype RawInfo = RawInfo(format: string, message: string)

  datatype MetadataInfo = MetadataInfo(parserVersion: string, ingestedAt: string)

  datatype UniversalEvent = UniversalEvent(
    eventId: string, schemaVersion: string, timestamp: string, source: SourceInfo, event: EventInfo,
    network: Option<NetworkInfo>, user: Option<UserInfo>, raw: RawInfo, metadata: MetadataInfo)
}
