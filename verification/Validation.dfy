/**
  The universal event schema as data, and an interpreter for the keywords it uses: `type`, `enum`,
  `minLength`, `minimum`, `maximum`, `required` and `properties` of JSON Schema Validation
  (Draft 2020-12), with additional properties allowed everywhere.
*/
module Validation {
  import opened Models
  import opened Normalizer

  // ---------------------------------------------------------------- values and schemas

  datatype Json =
    | Null
    | Bool(b: bool)
    | Number(n: real)
    | Text(s: string)
    | Array(items: seq<Json>)
    | Object(members: map<string, Json>)

  datatype Kind = NullKind | BooleanKind | IntegerKind | NumberKind | TextKind | ArrayKind | ObjectKind

  /** `types` and `choices` are unconstrained when `None`, as are the two bounds. */
  datatype Schema = Schema(
    types: Option<set<Kind>>, choices: Option<set<Json>>, minLength: nat, minimum: Option<real>, maximum: Option<real>,
    required: set<string>, properties: map<string, Schema>)

  /** Whether a value is of a type; an integer is a number without fraction, however it is written. */
  predicate IsOf(j: Json, kind: Kind) {
    match kind
    case NullKind => j.Null?
    case BooleanKind => j.Bool?
    case IntegerKind => j.Number? && j.n == j.n.Floor as real
    case NumberKind => j.Number?
    case TextKind => j.Text?
    case ArrayKind => j.Array?
    case ObjectKind => j.Object?
  }

  /** The keywords that look at the value alone. */
  ghost predicate ValidAtRoot(schema: Schema, j: Json) {
    && (schema.types.Some? ==> exists kind :: kind in schema.types.value && IsOf(j, kind))
    && (schema.choices.Some? ==> j in schema.choices.value)
    && (j.Text? ==> schema.minLength <= |j.s|)
    && (j.Number? && schema.minimum.Some? ==> schema.minimum.value <= j.n)
    && (j.Number? && schema.maximum.Some? ==> j.n <= schema.maximum.value)
    && (j.Object? ==> schema.required <= j.members.Keys)
  }

  ghost predicate Valid(schema: Schema, j: Json)
    decreases schema
  {
    && ValidAtRoot(schema, j)
    && (j.Object? ==> forall name :: name in schema.properties && name in j.members ==>
                                       Valid(schema.properties[name], j.members[name]))
  }

  /** Members that a schema does not describe never matter. */
  lemma AdditionalMembersAreIgnored(schema: Schema, members: map<string, Json>, name: string, value: Json)
    requires name !in schema.properties && name !in schema.required && schema.choices.None?
    ensures Valid(schema, Object(members[name := value])) <==> Valid(schema, Object(members))
  {
    var a, b := Object(members[name := value]), Object(members);
    assert forall kind :: IsOf(a, kind) == IsOf(b, kind);
    assert schema.required <= a.members.Keys <==> schema.required <= b.members.Keys by {
      assert a.members.Keys == b.members.Keys + {name};
    }
    assert forall n :: n in schema.properties && n in a.members <==> n in schema.properties && n in b.members;
    assert forall n :: n in schema.properties && n in a.members ==> a.members[n] == b.members[n];
  }

  // ---------------------------------------------------------------- the universal event schema

  const Anything := Schema(None, None, 0, None, None, {}, map[])

  const TextOnly := Anything.(types := Some({TextKind}))

  const NonEmptyText := TextOnly.(minLength := 1)

  const VersionText := TextOnly.(choices := Some({Text("1.0")}))

  const TextOrNull := Anything.(types := Some({TextKind, NullKind}))

  const PortOrNull := Anything.(types := Some({IntegerKind, NullKind}), minimum := Some(0.0), maximum := Some(65535.0))

  function Record(properties: map<string, Schema>): Schema {
    Anything.(types := Some({ObjectKind}), properties := properties)
  }

  function RecordOrNull(properties: map<string, Schema>): Schema {
    Anything.(types := Some({ObjectKind, NullKind}), properties := properties)
  }

  const SourceSchema := Record(map["type" := TextOrNull, "vendor" := TextOrNull,
                                   "product" := TextOrNull, "identifier" := TextOrNull])

  const EventSchema := Record(map["category" := TextOrNull, "action" := TextOrNull, "severity" := TextOrNull])

  const NetworkSchema :=
    RecordOrNull(map["src_ip" := TextOrNull, "src_port" := PortOrNull, "dst_ip" := TextOrNull,
                     "dst_port" := PortOrNull, "protocol" := TextOrNull])

  const UserSchema := RecordOrNull(map["username" := TextOrNull])

  const RawSchema := Record(map["format" := TextOnly, "message" := TextOnly]).(required := {"format", "message"})

  const MetadataSchema :=
    Record(map["parser_version" := TextOnly, "ingested_at" := TextOnly]).(required := {"parser_version", "ingested_at"})

  /** The schemas of the nine members of an event document. */
  datatype Layout = Layout(
    eventId: Schema, schemaVersion: Schema, timestamp: Schema, source: Schema, event: Schema,
    network: Schema, user: Schema, raw: Schema, metadata: Schema)

  function Properties(l: Layout): map<string, Schema> {
    map["event_id" := l.eventId, "schema_version" := l.schemaVersion, "timestamp" := l.timestamp,
        "source" := l.source, "event" := l.event, "network" := l.network, "user" := l.user,
        "raw" := l.raw, "metadata" := l.metadata]
  }

  const Required := {"event_id", "schema_version", "timestamp", "source", "event", "raw", "metadata"}

  const UniversalLayout :=
    Layout(NonEmptyText, VersionText, TextOnly, SourceSchema, EventSchema, NetworkSchema, UserSchema, RawSchema,
           MetadataSchema)

  const UniversalSchema := Record(Properties(UniversalLayout)).(required := Required)

  // ---------------------------------------------------------------- encoding an event

  /** A member that is left out when there is nothing to write. */
  function With(members: map<string, Json>, name: string, part: Option<Json>): map<string, Json> {
    if part.Some? then members[name := part.value] else members
  }

  /** A string with `omitempty`. */
  function OptText(s: string): Option<Json> {
    if s == "" then None else Some(Text(s))
  }

  /** A pointer to a number with `omitempty`. */
  function OptPort(port: Option<int>): Option<Json> {
    if port.Some? then Some(Number(port.value as real)) else None
  }

  function EncodeSource(s: SourceInfo): Json {
    Object(SourceMembers(OptText(s.kind), OptText(s.vendor), OptText(s.product), OptText(s.identifier)))
  }

  function SourceMembers(kind: Option<Json>, vendor: Option<Json>, product: Option<Json>,
                         identifier: Option<Json>): map<string, Json> {
    With(With(With(With(map[], "type", kind), "vendor", vendor), "product", product), "identifier", identifier)
  }

  function EncodeEvent(e: EventInfo): Json {
    Object(EventMembers(OptText(e.category), OptText(e.action), OptText(e.severity)))
  }

  function EventMembers(category: Option<Json>, action: Option<Json>, severity: Option<Json>): map<string, Json> {
    With(With(With(map[], "category", category), "action", action), "severity", severity)
  }

  function EncodeNetwork(n: NetworkInfo): Json {
    Object(NetworkMembers(OptText(n.srcIp), OptPort(n.srcPort), OptText(n.dstIp), OptPort(n.dstPort),
                          OptText(n.protocol)))
  }

  function NetworkMembers(srcIp: Option<Json>, srcPort: Option<Json>, dstIp: Option<Json>, dstPort: Option<Json>,
                          protocol: Option<Json>): map<string, Json> {
    With(With(With(With(With(map[], "src_ip", srcIp), "src_port", srcPort), "dst_ip", dstIp), "dst_port", dstPort),
         "protocol", protocol)
  }

  /** `username` has no `omitempty`: a nil pointer is written as null. */
  function EncodeUser(u: UserInfo): Json {
    Object(map["username" := if u.username.Some? then Text(u.username.value) else Null])
  }

  function EncodeRaw(r: RawInfo): Json {
    Object(map["format" := Text(r.format), "message" := Text(r.message)])
  }

  function EncodeMetadata(m: MetadataInfo): Json {
    Object(map["parser_version" := Text(m.parserVersion), "ingested_at" := Text(m.ingestedAt)])
  }

  /** The nine parts of an event document; two may be missing. */
  datatype Parts = Parts(
    eventId: Json, schemaVersion: Json, timestamp: Json, source: Json, event: Json,
    network: Option<Json>, user: Option<Json>, raw: Json, metadata: Json)

  function PartsOf(u: UniversalEvent): Parts {
    Parts(Text(u.eventId), Text(u.schemaVersion), Text(u.timestamp), EncodeSource(u.source), EncodeEvent(u.event),
          if u.network.Some? then Some(EncodeNetwork(u.network.value)) else None,
          if u.user.Some? then Some(EncodeUser(u.user.value)) else None,
          EncodeRaw(u.raw), EncodeMetadata(u.metadata))
  }

  function Assemble(p: Parts): map<string, Json> {
    var always := map["event_id" := p.eventId, "schema_version" := p.schemaVersion, "timestamp" := p.timestamp,
                      "source" := p.source, "event" := p.event, "raw" := p.raw, "metadata" := p.metadata];
    With(With(always, "network", p.network), "user", p.user)
  }

  function Encode(u: UniversalEvent): Json {
    Object(Assemble(PartsOf(u)))
  }

  // ---------------------------------------------------------------- reading an event back

  function Member(members: map<string, Json>, name: string): Option<Json> {
    if name in members then Some(members[name]) else None
  }

  function MembersOf(j: Json): map<string, Json> {
    if j.Object? then j.members else map[]
  }

  /** An absent member leaves the field at its zero value. */
  function ReadText(part: Option<Json>): string {
    if part.Some? && part.value.Text? then part.value.s else ""
  }

  function ReadPort(part: Option<Json>): Option<int> {
    if part.Some? && part.value.Number? then Some(part.value.n.Floor) else None
  }

  function DecodeSource(j: Json): SourceInfo {
    var m := MembersOf(j);
    SourceInfo(ReadText(Member(m, "type")), ReadText(Member(m, "vendor")), ReadText(Member(m, "product")),
               ReadText(Member(m, "identifier")))
  }

  function DecodeEvent(j: Json): EventInfo {
    var m := MembersOf(j);
    EventInfo(ReadText(Member(m, "category")), ReadText(Member(m, "action")), ReadText(Member(m, "severity")))
  }

  function DecodeNetwork(j: Json): NetworkInfo {
    var m := MembersOf(j);
    NetworkInfo(ReadText(Member(m, "src_ip")), ReadPort(Member(m, "src_port")), ReadText(Member(m, "dst_ip")),
                ReadPort(Member(m, "dst_port")), ReadText(Member(m, "protocol")))
  }

  function DecodeUser(j: Json): UserInfo {
    var username := Member(MembersOf(j), "username");
    UserInfo(if username.Some? && username.value.Text? then Some(username.value.s) else None)
  }

  function DecodeRaw(j: Json): RawInfo {
    RawInfo(ReadText(Member(MembersOf(j), "format")), ReadText(Member(MembersOf(j), "message")))
  }

  function DecodeMetadata(j: Json): MetadataInfo {
    MetadataInfo(ReadText(Member(MembersOf(j), "parser_version")), ReadText(Member(MembersOf(j), "ingested_at")))
  }

  /** A member that must be there; an absent one reads like null. */
  function Needed(members: map<string, Json>, name: string): Json {
    if name in members then members[name] else Null
  }

  function Disassemble(m: map<string, Json>): Parts {
    Parts(Needed(m, "event_id"), Needed(m, "schema_version"), Needed(m, "timestamp"), Needed(m, "source"),
          Needed(m, "event"),
          Member(m, "network"), Member(m, "user"), Needed(m, "raw"), Needed(m, "metadata"))
  }

  function Decode(j: Json): UniversalEvent {
    var p := Disassemble(MembersOf(j));
    UniversalEvent(
      ReadText(Some(p.eventId)), ReadText(Some(p.schemaVersion)), ReadText(Some(p.timestamp)),
      DecodeSource(p.source), DecodeEvent(p.event),
      if p.network.Some? && p.network.value != Null then Some(DecodeNetwork(p.network.value)) else None,
      if p.user.Some? && p.user.value != Null then Some(DecodeUser(p.user.value)) else None,
      DecodeRaw(p.raw), DecodeMetadata(p.metadata))
  }

  lemma SourceMembersReadBack(kind: Option<Json>, vendor: Option<Json>, product: Option<Json>, identifier: Option<Json>)
    ensures var m := SourceMembers(kind, vendor, product, identifier);
            && Member(m, "type") == kind && Member(m, "vendor") == vendor
            && Member(m, "product") == product && Member(m, "identifier") == identifier
  {
  }

  lemma EventMembersReadBack(category: Option<Json>, action: Option<Json>, severity: Option<Json>)
    ensures var m := EventMembers(category, action, severity);
            Member(m, "category") == category && Member(m, "action") == action && Member(m, "severity") == severity
  {
  }

  lemma NetworkMembersReadBack(srcIp: Option<Json>, srcPort: Option<Json>, dstIp: Option<Json>, dstPort: Option<Json>,
                               protocol: Option<Json>)
    ensures var m := NetworkMembers(srcIp, srcPort, dstIp, dstPort, protocol);
            && Member(m, "src_ip") == srcIp && Member(m, "src_port") == srcPort
            && Member(m, "dst_ip") == dstIp && Member(m, "dst_port") == dstPort && Member(m, "protocol") == protocol
  {
  }

  lemma PartsReadBack(p: Parts)
    ensures Disassemble(Assemble(p)) == p
  {
  }

  lemma SourceRoundTrip(s: SourceInfo)
    ensures DecodeSource(EncodeSource(s)) == s
  {
    SourceMembersReadBack(OptText(s.kind), OptText(s.vendor), OptText(s.product), OptText(s.identifier));
  }

  lemma EventRoundTrip(e: EventInfo)
    ensures DecodeEvent(EncodeEvent(e)) == e
  {
    EventMembersReadBack(OptText(e.category), OptText(e.action), OptText(e.severity));
  }

  lemma NetworkRoundTrip(n: NetworkInfo)
    ensures DecodeNetwork(EncodeNetwork(n)) == n
  {
    NetworkMembersReadBack(OptText(n.srcIp), OptPort(n.srcPort), OptText(n.dstIp), OptPort(n.dstPort),
                           OptText(n.protocol));
  }

  lemma SmallRecordsRoundTrip(u: UserInfo, r: RawInfo, m: MetadataInfo)
    ensures DecodeUser(EncodeUser(u)) == u && DecodeRaw(EncodeRaw(r)) == r && DecodeMetadata(EncodeMetadata(m)) == m
  {
  }

  /** Which member holds which field, and when it is left out. */
  lemma NetworkMembersAre(n: NetworkInfo)
    ensures var m := EncodeNetwork(n).members;
            && EncodeNetwork(n) == Object(m) && m.Keys <= {"src_ip", "src_port", "dst_ip", "dst_port", "protocol"}
            && ("src_ip" in m <==> n.srcIp != "") && ("src_ip" in m ==> m["src_ip"] == Text(n.srcIp))
            && ("src_port" in m <==> n.srcPort.Some?)
            && ("src_port" in m ==> m["src_port"] == Number(n.srcPort.value as real))
            && ("dst_ip" in m <==> n.dstIp != "") && ("dst_ip" in m ==> m["dst_ip"] == Text(n.dstIp))
            && ("dst_port" in m <==> n.dstPort.Some?)
            && ("dst_port" in m ==> m["dst_port"] == Number(n.dstPort.value as real))
            && ("protocol" in m <==> n.protocol != "") && ("protocol" in m ==> m["protocol"] == Text(n.protocol))
  {
    NetworkMembersReadBack(OptText(n.srcIp), OptPort(n.srcPort), OptText(n.dstIp), OptPort(n.dstPort),
                           OptText(n.protocol));
  }

  lemma SourceMembersAre(s: SourceInfo)
    ensures var m := EncodeSource(s).members;
            && EncodeSource(s) == Object(m) && m.Keys <= {"type", "vendor", "product", "identifier"}
            && ("type" in m <==> s.kind != "") && ("type" in m ==> m["type"] == Text(s.kind))
            && ("vendor" in m <==> s.vendor != "") && ("vendor" in m ==> m["vendor"] == Text(s.vendor))
            && ("product" in m <==> s.product != "") && ("product" in m ==> m["product"] == Text(s.product))
            && ("identifier" in m <==> s.identifier != "")
            && ("identifier" in m ==> m["identifier"] == Text(s.identifier))
  {
    SourceMembersReadBack(OptText(s.kind), OptText(s.vendor), OptText(s.product), OptText(s.identifier));
  }

  lemma EventMembersAre(e: EventInfo)
    ensures var m := EncodeEvent(e).members;
            && EncodeEvent(e) == Object(m) && m.Keys <= {"category", "action", "severity"}
            && ("category" in m <==> e.category != "") && ("category" in m ==> m["category"] == Text(e.category))
            && ("action" in m <==> e.action != "") && ("action" in m ==> m["action"] == Text(e.action))
            && ("severity" in m <==> e.severity != "") && ("severity" in m ==> m["severity"] == Text(e.severity))
  {
    EventMembersReadBack(OptText(e.category), OptText(e.action), OptText(e.severity));
  }

  lemma DocumentMembersAre(u: UniversalEvent)
    ensures var m := MembersOf(Encode(u));
            && Encode(u) == Object(m) && Required <= m.Keys <= Required + {"network", "user"}
            && m["event_id"] == Text(u.eventId) && m["schema_version"] == Text(u.schemaVersion)
            && m["timestamp"] == Text(u.timestamp) && m["source"] == EncodeSource(u.source)
            && m["event"] == EncodeEvent(u.event)
            && ("network" in m <==> u.network.Some?)
            && ("network" in m ==> m["network"] == EncodeNetwork(u.network.value))
            && ("user" in m <==> u.user.Some?)
  {
    PartsReadBack(PartsOf(u));
    RequiredAreThere(PartsOf(u));
    KeysOfAssembled(PartsOf(u));
  }

  lemma KeysOfAssembled(p: Parts)
    ensures Assemble(p).Keys <= Required + {"network", "user"}
  {
  }

  lemma SmallMembersAre(u: UniversalEvent)
    ensures var m := MembersOf(Encode(u));
            && "raw" in m && m["raw"] == Object(map["format" := Text(u.raw.format), "message" := Text(u.raw.message)])
            && "metadata" in m
            && m["metadata"] == Object(map["parser_version" := Text(u.metadata.parserVersion),
                                           "ingested_at" := Text(u.metadata.ingestedAt)])
            && (u.user.Some? ==>
                  var username := u.user.value.username;
                  && "user" in m
                  && m["user"] == Object(map["username" := if username.Some? then Text(username.value) else Null]))
  {
    PartsReadBack(PartsOf(u));
    RequiredAreThere(PartsOf(u));
  }

  /** Leaving empty members out loses nothing: the encoding of every event reads back as that event. */
  lemma EncodingRoundTrip(u: UniversalEvent)
    ensures Decode(Encode(u)) == u
  {
    PartsReadBack(PartsOf(u));
    SourceRoundTrip(u.source);
    EventRoundTrip(u.event);
    if u.network.Some? {
      NetworkRoundTrip(u.network.value);
    }
    SmallRecordsRoundTrip(if u.user.Some? then u.user.value else UserInfo(None), u.raw, u.metadata);
  }

  // ---------------------------------------------------------------- validity

  predicate PortInRange(port: Option<int>) {
    port.Some? ==> 0 <= port.value <= 65535
  }

  predicate PortsInRange(network: Option<NetworkInfo>) {
    network.Some? ==> PortInRange(network.value.srcPort) && PortInRange(network.value.dstPort)
  }

  lemma TextIsValid(s: string)
    ensures Valid(TextOrNull, Text(s)) && Valid(TextOnly, Text(s))
    ensures Valid(NonEmptyText, Text(s)) <==> s != ""
    ensures Valid(VersionText, Text(s)) <==> s == "1.0"
    ensures Valid(TextOrNull, Null)
  {
    assert TextKind in TextOnly.types.value && IsOf(Text(s), TextKind);
    assert NullKind in TextOrNull.types.value && IsOf(Null, NullKind);
    assert TextKind in TextOrNull.types.value;
  }

  lemma PortIsValid(port: int)
    ensures Valid(PortOrNull, Number(port as real)) <==> 0 <= port <= 65535
  {
    assert IntegerKind in PortOrNull.types.value && IsOf(Number(port as real), IntegerKind);
  }

  /** An object is valid when its required members are there and its described members are valid. */
  lemma ObjectIsValid(schema: Schema, members: map<string, Json>)
    requires schema.types.Some? && ObjectKind in schema.types.value && schema.choices.None?
    ensures Valid(schema, Object(members)) <==>
            && schema.required <= members.Keys
            && forall name :: name in schema.properties && name in members ==>
                                Valid(schema.properties[name], members[name])
  {
    assert IsOf(Object(members), ObjectKind);
  }

  /** An optional member is valid when it is absent or its part is. */
  ghost predicate ValidIfAny(schema: Schema, part: Option<Json>) {
    part.Some? ==> Valid(schema, part.value)
  }

  lemma SourceIsValid(s: SourceInfo)
    ensures Valid(SourceSchema, EncodeSource(s))
  {
    TextIsValid(s.kind);
    TextIsValid(s.vendor);
    TextIsValid(s.product);
    TextIsValid(s.identifier);
    SourceMembersReadBack(OptText(s.kind), OptText(s.vendor), OptText(s.product), OptText(s.identifier));
    ObjectIsValid(SourceSchema, EncodeSource(s).members);
  }

  lemma EventIsValid(e: EventInfo)
    ensures Valid(EventSchema, EncodeEvent(e))
  {
    TextIsValid(e.category);
    TextIsValid(e.action);
    TextIsValid(e.severity);
    EventMembersReadBack(OptText(e.category), OptText(e.action), OptText(e.severity));
    ObjectIsValid(EventSchema, EncodeEvent(e).members);
  }

  lemma NetworkMembersAreValid(srcIp: Option<Json>, srcPort: Option<Json>, dstIp: Option<Json>, dstPort: Option<Json>,
                               protocol: Option<Json>)
    requires ValidIfAny(TextOrNull, srcIp) && ValidIfAny(TextOrNull, dstIp) && ValidIfAny(TextOrNull, protocol)
    ensures Valid(NetworkSchema, Object(NetworkMembers(srcIp, srcPort, dstIp, dstPort, protocol)))
       <==> ValidIfAny(PortOrNull, srcPort) && ValidIfAny(PortOrNull, dstPort)
  {
    var m := NetworkMembers(srcIp, srcPort, dstIp, dstPort, protocol);
    NetworkMembersReadBack(srcIp, srcPort, dstIp, dstPort, protocol);
    ObjectIsValid(NetworkSchema, m);
    assert NetworkSchema.properties["src_port"] == PortOrNull && NetworkSchema.properties["dst_port"] == PortOrNull;
  }

  lemma NetworkIsValid(n: NetworkInfo)
    ensures Valid(NetworkSchema, EncodeNetwork(n)) <==> PortInRange(n.srcPort) && PortInRange(n.dstPort)
  {
    TextIsValid(n.srcIp);
    TextIsValid(n.dstIp);
    TextIsValid(n.protocol);
    if n.srcPort.Some? {
      PortIsValid(n.srcPort.value);
    }
    if n.dstPort.Some? {
      PortIsValid(n.dstPort.value);
    }
    NetworkMembersAreValid(OptText(n.srcIp), OptPort(n.srcPort), OptText(n.dstIp), OptPort(n.dstPort),
                           OptText(n.protocol));
  }

  lemma UserIsValid(u: UserInfo)
    ensures Valid(UserSchema, EncodeUser(u))
  {
    TextIsValid(if u.username.Some? then u.username.value else "");
    ObjectIsValid(UserSchema, EncodeUser(u).members);
  }

  lemma RawIsValid(r: RawInfo)
    ensures Valid(RawSchema, EncodeRaw(r))
  {
    TextIsValid(r.format);
    TextIsValid(r.message);
    ObjectIsValid(RawSchema, EncodeRaw(r).members);
  }

  lemma MetadataIsValid(m: MetadataInfo)
    ensures Valid(MetadataSchema, EncodeMetadata(m))
  {
    TextIsValid(m.parserVersion);
    TextIsValid(m.ingestedAt);
    ObjectIsValid(MetadataSchema, EncodeMetadata(m).members);
  }

  ghost predicate PartsAreValid(l: Layout, p: Parts) {
    && Valid(l.eventId, p.eventId) && Valid(l.schemaVersion, p.schemaVersion) && Valid(l.timestamp, p.timestamp)
    && Valid(l.source, p.source) && Valid(l.event, p.event) && ValidIfAny(l.network, p.network)
    && ValidIfAny(l.user, p.user)
    && Valid(l.raw, p.raw) && Valid(l.metadata, p.metadata)
  }

  ghost predicate MembersAreValid(l: Layout, p: Parts) {
    forall name :: name in Properties(l) && name in Assemble(p) ==> Valid(Properties(l)[name], Assemble(p)[name])
  }

  lemma MembersFromParts(l: Layout, p: Parts)
    requires PartsAreValid(l, p)
    ensures MembersAreValid(l, p)
  {
    PartsReadBack(p);
    forall name | name in Properties(l) && name in Assemble(p) ensures Valid(Properties(l)[name], Assemble(p)[name]) {
      assert name == "network" || name == "user" || name in Required;
    }
  }

  lemma PartsFromMembers(l: Layout, p: Parts)
    requires MembersAreValid(l, p)
    ensures PartsAreValid(l, p)
  {
    var m := Assemble(p);
    PartsReadBack(p);
    RequiredAreThere(p);
    assert "event_id" in m && "schema_version" in m && "timestamp" in m;
    assert "source" in m && "event" in m && "raw" in m && "metadata" in m;
    assert p.network.Some? ==> "network" in m;
    assert p.user.Some? ==> "user" in m;
  }

  lemma RequiredAreThere(p: Parts)
    ensures Required <= Assemble(p).Keys
  {
  }

  lemma AssembledIsValid(p: Parts)
    ensures Valid(UniversalSchema, Object(Assemble(p))) <==> PartsAreValid(UniversalLayout, p)
  {
    if PartsAreValid(UniversalLayout, p) {
      MembersFromParts(UniversalLayout, p);
    } else if MembersAreValid(UniversalLayout, p) {
      PartsFromMembers(UniversalLayout, p);
    }
    RequiredAreThere(p);
    ObjectIsValid(UniversalSchema, Assemble(p));
  }

  /** Which events the schema accepts, whoever built them. */
  lemma ValidExactly(u: UniversalEvent)
    ensures Valid(UniversalSchema, Encode(u)) <==>
            u.eventId != "" && u.schemaVersion == "1.0" && PortsInRange(u.network)
  {
    TextIsValid(u.eventId);
    TextIsValid(u.schemaVersion);
    TextIsValid(u.timestamp);
    SourceIsValid(u.source);
    EventIsValid(u.event);
    RawIsValid(u.raw);
    MetadataIsValid(u.metadata);
    if u.network.Some? {
      NetworkIsValid(u.network.value);
    }
    if u.user.Some? {
      UserIsValid(u.user.value);
    }
    AssembledIsValid(PartsOf(u));
  }

  /** What the normalizer builds is valid if and only if each port is absent or in 0..65535. */
  lemma NormalizedIsValidExactly(raw: RawEvent, p: ParsedEvent, detected: string, uuid: string, now: string)
    ensures Valid(UniversalSchema, Encode(Normalize(raw, Some(p), detected, uuid, now).value)) <==>
            PortsInRange(p.network)
  {
    ValidExactly(Normalize(raw, Some(p), detected, uuid, now).value);
  }

  // ---------------------------------------------------------------- every document

  predicate IsTextOrNull(j: Json) {
    j.Text? || j.Null?
  }

  predicate IsPortOrNull(j: Json) {
    j.Null? || (j.Number? && j.n == j.n.Floor as real && 0.0 <= j.n <= 65535.0)
  }

  /** Each of these members, if it is there, satisfies `p`. */
  predicate Each(m: map<string, Json>, names: set<string>, p: Json -> bool) {
    forall name :: name in names && name in m ==> p(m[name])
  }

  lemma TextSchemas(j: Json)
    ensures Valid(TextOrNull, j) <==> IsTextOrNull(j)
    ensures Valid(TextOnly, j) <==> j.Text?
  {
    assert IsOf(j, TextKind) <==> j.Text?;
    assert IsOf(j, NullKind) <==> j.Null?;
  }

  lemma IdSchemas(j: Json)
    ensures Valid(NonEmptyText, j) <==> j.Text? && j.s != ""
    ensures Valid(VersionText, j) <==> j == Text("1.0")
  {
    assert IsOf(j, TextKind) <==> j.Text?;
  }

  lemma PortSchema(j: Json)
    ensures Valid(PortOrNull, j) <==> IsPortOrNull(j)
  {
    assert IsOf(j, IntegerKind) <==> j.Number? && j.n == j.n.Floor as real;
    assert IsOf(j, NullKind) <==> j.Null?;
  }

  predicate IsSource(j: Json) {
    j.Object? && Each(j.members, {"type", "vendor", "product", "identifier"}, IsTextOrNull)
  }

  predicate IsEvent(j: Json) {
    j.Object? && Each(j.members, {"category", "action", "severity"}, IsTextOrNull)
  }

  predicate IsNetwork(j: Json) {
    || j.Null?
    || (j.Object? && Each(j.members, {"src_ip", "dst_ip", "protocol"}, IsTextOrNull)
        && Each(j.members, {"src_port", "dst_port"}, IsPortOrNull))
  }

  predicate IsUser(j: Json) {
    j.Null? || (j.Object? && Each(j.members, {"username"}, IsTextOrNull))
  }

  predicate HasTexts(j: Json, names: set<string>) {
    j.Object? && names <= j.members.Keys && forall name :: name in names ==> j.members[name].Text?
  }

  lemma SourceSchemaExactly(j: Json)
    ensures Valid(SourceSchema, j) <==> IsSource(j)
  {
    forall k: Json ensures Valid(TextOrNull, k) <==> IsTextOrNull(k) { TextSchemas(k); }
    assert SourceSchema.properties.Keys == {"type", "vendor", "product", "identifier"};
  }

  lemma EventSchemaExactly(j: Json)
    ensures Valid(EventSchema, j) <==> IsEvent(j)
  {
    forall k: Json ensures Valid(TextOrNull, k) <==> IsTextOrNull(k) { TextSchemas(k); }
    assert EventSchema.properties.Keys == {"category", "action", "severity"};
  }

  lemma NetworkSchemaExactly(j: Json)
    ensures Valid(NetworkSchema, j) <==> IsNetwork(j)
  {
    forall k: Json ensures Valid(TextOrNull, k) <==> IsTextOrNull(k) { TextSchemas(k); }
    forall k: Json ensures Valid(PortOrNull, k) <==> IsPortOrNull(k) { PortSchema(k); }
    assert NetworkSchema.properties.Keys == {"src_ip", "dst_ip", "protocol"} + {"src_port", "dst_port"};
    assert IsOf(j, ObjectKind) <==> j.Object?;
    assert IsOf(j, NullKind) <==> j.Null?;
  }

  lemma UserSchemaExactly(j: Json)
    ensures Valid(UserSchema, j) <==> IsUser(j)
  {
    forall k: Json ensures Valid(TextOrNull, k) <==> IsTextOrNull(k) { TextSchemas(k); }
    assert UserSchema.properties.Keys == {"username"};
    assert IsOf(j, ObjectKind) <==> j.Object?;
    assert IsOf(j, NullKind) <==> j.Null?;
  }

  lemma SmallSchemasExactly(j: Json)
    ensures Valid(RawSchema, j) <==> HasTexts(j, {"format", "message"})
    ensures Valid(MetadataSchema, j) <==> HasTexts(j, {"parser_version", "ingested_at"})
  {
    forall k: Json ensures Valid(TextOnly, k) <==> k.Text? { TextSchemas(k); }
    assert RawSchema.properties.Keys == {"format", "message"};
    assert MetadataSchema.properties.Keys == {"parser_version", "ingested_at"};
    assert IsOf(j, ObjectKind) <==> j.Object?;
  }

  /** The nine members of any document, those that must be there and those that may. */
  predicate MembersAre(m: map<string, Json>) {
    && Required <= m.Keys
    && m["event_id"].Text? && m["event_id"].s != "" && m["schema_version"] == Text("1.0") && m["timestamp"].Text?
    && IsSource(m["source"]) && IsEvent(m["event"])
    && ("network" in m ==> IsNetwork(m["network"])) && ("user" in m ==> IsUser(m["user"]))
    && HasTexts(m["raw"], {"format", "message"}) && HasTexts(m["metadata"], {"parser_version", "ingested_at"})
  }

  ghost predicate MembersValid(l: Layout, m: map<string, Json>) {
    && Required <= m.Keys
    && Valid(l.eventId, m["event_id"]) && Valid(l.schemaVersion, m["schema_version"])
    && Valid(l.timestamp, m["timestamp"])
    && Valid(l.source, m["source"]) && Valid(l.event, m["event"])
    && ("network" in m ==> Valid(l.network, m["network"])) && ("user" in m ==> Valid(l.user, m["user"]))
    && Valid(l.raw, m["raw"]) && Valid(l.metadata, m["metadata"])
  }

  lemma MembersValidExactly(l: Layout, m: map<string, Json>)
    requires Required <= m.Keys
    ensures MembersValid(l, m) <==>
            forall name :: name in Properties(l) && name in m ==> Valid(Properties(l)[name], m[name])
  {
    assert "event_id" in m && "schema_version" in m && "timestamp" in m;
    assert "source" in m && "event" in m && "raw" in m && "metadata" in m;
  }

  /** Which documents the schema accepts, wherever they come from. */
  lemma SchemaExactly(j: Json)
    ensures Valid(UniversalSchema, j) <==> j.Object? && MembersAre(j.members)
  {
    if j.Object? {
      var m := j.members;
      ObjectIsValid(UniversalSchema, m);
      if Required <= m.Keys {
        MembersValidExactly(UniversalLayout, m);
        IdSchemas(m["event_id"]);
        IdSchemas(m["schema_version"]);
        TextSchemas(m["timestamp"]);
        SourceSchemaExactly(m["source"]);
        EventSchemaExactly(m["event"]);
        if "network" in m {
          NetworkSchemaExactly(m["network"]);
        }
        if "user" in m {
          UserSchemaExactly(m["user"]);
        }
        SmallSchemasExactly(m["raw"]);
        SmallSchemasExactly(m["metadata"]);
      }
    } else {
      assert !IsOf(j, ObjectKind);
    }
  }
}
