/** The JSON parser, from the decoded log record: an override cascade, shown to be a choice by priority. */
module JsonParser {
  import opened Models
  import opened Text

  // ---------------------------------------------------------------- the decoded record

  /** What an interface{} field can hold; `json.Number` carries the numeral's text. */
  datatype Any = Null | Float(r: real) | Int(n: int) | Number(text: string) | Str(s: string) | Other

  datatype SourceRec = SourceRec(identifier: string, vendor: string, product: string, kind: string)

  datatype FirewallRec = FirewallRec(action: string, protocol: string, category: string, severity: string)

  datatype EndpointRec = EndpointRec(ip: string, port: Any)

  datatype NetworkRec = NetworkRec(
    protocol: string, srcIp: string, srcPort: Any, dstIp: string, dstPort: Any,
    source: Option<EndpointRec>, destination: Option<EndpointRec>)

  /** `user` is the optional object; its username may itself be null. */
  datatype LogRec = LogRec(
    timestamp: string, source: Option<SourceRec>, firewall: Option<FirewallRec>, network: Option<NetworkRec>,
    user: Option<UserInfo>,
    action: string, protocol: string, category: string, severity: string,
    srcIp: string, srcPort: Any, dstIp: string, dstPort: Any,
    sourceIp: string, destinationIp: string, sourcePort: Any, destinationPort: Any)

  /** Conversion of a float64 to int truncates toward zero. */
  function Truncate(r: real): int {
    if r >= 0.0 then r.Floor else -((-r).Floor)
  }

  function ParsePort(v: Any): Option<int> {
    match v
    case Null => None
    case Float(r) => Some(Truncate(r))
    case Int(n) => Some(n)
    case Number(text) => Atoi(text)
    case Str(s) => Atoi(TrimSpace(s))
    case Other => None
  }

  // ---------------------------------------------------------------- the record as priorities

  /** `s`, unless it is empty. */
  function Prefer(s: string, otherwise: string): string {
    if s != "" then s else otherwise
  }

  /** The port in `v`, unless it holds none. */
  function PreferPort(v: Any, otherwise: Option<int>): Option<int> {
    if ParsePort(v).Some? then ParsePort(v) else otherwise
  }

  const NoFirewall := FirewallRec("", "", "", "")
  const NoEndpoint := EndpointRec("", Null)
  const NoNetwork := NetworkRec("", "", Null, "", Null, None, None)
  const NoSource := SourceRec("", "", "", "")

  function Or<T>(o: Option<T>, default: T): T {
    if o.Some? then o.value else default
  }

  /** What is given is mapped to one case; the default is "unknown". */
  function ActionOf(d: LogRec): string {
    var given := Prefer(d.action, Or(d.firewall, NoFirewall).action);
    if given == "" then "unknown" else ToLower(given)
  }

  function ProtocolOf(d: LogRec): string {
    var given := Prefer(Or(d.network, NoNetwork).protocol, Prefer(d.protocol, Or(d.firewall, NoFirewall).protocol));
    if given == "" then "unknown" else ToUpper(given)
  }

  /** Which field wins, most specific first; an absent object counts as one with empty fields. */
  function Prioritised(d: LogRec, rawSource: string, now: string): ParsedEvent {
    var fw, net, src := Or(d.firewall, NoFirewall), Or(d.network, NoNetwork), Or(d.source, NoSource);
    var from, to := Or(net.source, NoEndpoint), Or(net.destination, NoEndpoint);
    var action := ActionOf(d);
    var stops := action == "deny" || action == "block" || action == "drop";
    ParsedEvent(
      Prefer(d.timestamp, now),
      SourceInfo(Prefer(src.kind, "firewall"), Prefer(src.vendor, "generic"), Prefer(src.product, "json-firewall"),
                 Prefer(src.identifier, Prefer(rawSource, "json-source"))),
      EventInfo(Prefer(d.category, Prefer(fw.category, "network")), action,
                Prefer(d.severity, Prefer(fw.severity, if stops then "high" else "info"))),
      Some(NetworkInfo(Prefer(from.ip, Prefer(net.srcIp, Prefer(d.srcIp, Prefer(d.sourceIp, "")))),
                       PreferPort(from.port, PreferPort(net.srcPort,
                                                        PreferPort(d.srcPort, PreferPort(d.sourcePort, None)))),
                       Prefer(to.ip, Prefer(net.dstIp, Prefer(d.dstIp, Prefer(d.destinationIp, "")))),
                       PreferPort(to.port, PreferPort(net.dstPort,
                                                      PreferPort(d.dstPort, PreferPort(d.destinationPort, None)))),
                       ProtocolOf(d))),
      Some(Or(d.user, UserInfo(None))))
  }

  /** `data` is None when the payload does not decode. */
  function ParseJson(raw: RawEvent, data: Option<LogRec>, now: string): Result<ParsedEvent> {
    if TrimSpace(raw.payload) == "" then Err("empty JSON payload")
    else match data
         case None => Err("failed to unmarshal JSON")
         case Some(d) => Ok(Prioritised(d, raw.source, now))
  }

  // ---------------------------------------------------------------- the cascade of the code

  method Classify(d: LogRec) returns (event: EventInfo)
    ensures forall source, now :: event == Prioritised(d, source, now).event
  {
    var action, category, severity := "unknown", "network", "info";
    if d.firewall.Some? {
      var fw := d.firewall.value;
      if fw.action != "" {
        action := ToLower(fw.action);
      }
      if fw.category != "" {
        category := fw.category;
      }
      if fw.severity != "" {
        severity := fw.severity;
      }
    }
    if d.action != "" {
      action := ToLower(d.action);
    }
    if d.category != "" {
      category := d.category;
    }
    if d.severity != "" {
      severity := d.severity;
    }
    if (action == "deny" || action == "block" || action == "drop")
       && (d.firewall.None? || d.firewall.value.severity == "") && d.severity == "" {
      severity := "high";
    }
    event := EventInfo(category, action, severity);
  }

  method Route(d: LogRec) returns (net: NetworkInfo)
    ensures forall source, now :: Some(net) == Prioritised(d, source, now).network
  {
    var protocol := "unknown";
    if d.firewall.Some? && d.firewall.value.protocol != "" {
      protocol := ToUpper(d.firewall.value.protocol);
    }
    if d.protocol != "" {
      protocol := ToUpper(d.protocol);
    }
    var srcIp, srcPort := Side(d.srcIp, d.sourceIp, d.srcPort, d.sourcePort);
    var dstIp, dstPort := Side(d.dstIp, d.destinationIp, d.dstPort, d.destinationPort);
    if d.network.Some? {
      var n := d.network.value;
      if n.protocol != "" {
        protocol := ToUpper(n.protocol);
      }
      srcIp, srcPort := Override(srcIp, srcPort, EndpointRec(n.srcIp, n.srcPort));
      dstIp, dstPort := Override(dstIp, dstPort, EndpointRec(n.dstIp, n.dstPort));
      if n.source.Some? {
        srcIp, srcPort := Override(srcIp, srcPort, n.source.value);
      }
      if n.destination.Some? {
        dstIp, dstPort := Override(dstIp, dstPort, n.destination.value);
      }
    }
    net := NetworkInfo(srcIp, srcPort, dstIp, dstPort, protocol);
  }

  /** The top-level fields of one side: the short name before its alias. */
  method Side(ip: string, alias: string, port: Any, portAlias: Any) returns (chosen: string, number: Option<int>)
    ensures chosen == Prefer(ip, Prefer(alias, "")) && number == PreferPort(port, PreferPort(portAlias, None))
  {
    chosen := "";
    if ip != "" {
      chosen := ip;
    } else if alias != "" {
      chosen := alias;
    }
    number := ParsePort(port);
    if number.None? {
      number := ParsePort(portAlias);
    }
  }

  method Override(ip: string, port: Option<int>, end: EndpointRec) returns (chosen: string, number: Option<int>)
    ensures chosen == Prefer(end.ip, ip) && number == PreferPort(end.port, port)
  {
    chosen, number := ip, port;
    if end.ip != "" {
      chosen := end.ip;
    }
    if ParsePort(end.port).Some? {
      number := ParsePort(end.port);
    }
  }

  method Identify(d: LogRec, rawSource: string) returns (source: SourceInfo)
    ensures forall now :: source == Prioritised(d, rawSource, now).source
  {
    var identifier := rawSource;
    if identifier == "" {
      identifier := "json-source";
    }
    source := SourceInfo("firewall", "generic", "json-firewall", identifier);
    if d.source.Some? {
      var s := d.source.value;
      if s.kind != "" {
        source := source.(kind := s.kind);
      }
      if s.vendor != "" {
        source := source.(vendor := s.vendor);
      }
      if s.product != "" {
        source := source.(product := s.product);
      }
      if s.identifier != "" {
        source := source.(identifier := s.identifier);
      }
    }
  }

  /** The overrides, applied in the order of the code, pick what the priorities pick. */
  method Parse(raw: RawEvent, data: Option<LogRec>, now: string) returns (r: Result<ParsedEvent>)
    ensures r == ParseJson(raw, data, now)
  {
    if TrimSpace(raw.payload) == "" {
      return Err("empty JSON payload");
    }
    if data.None? {
      return Err("failed to unmarshal JSON");
    }
    var d := data.value;
    var ts := d.timestamp;
    if ts == "" {
      ts := now;
    }
    var event := Classify(d);
    var source := Identify(d, raw.source);
    var net := Route(d);
    var user := UserInfo(None);
    if d.user.Some? {
      user := d.user.value;
    }
    r := Ok(ParsedEvent(ts, source, event, Some(net), Some(user)));
  }

  // ---------------------------------------------------------------- which field wins

  /** The first choice that is not empty is taken; `default` if all are. */
  ghost predicate FirstGiven(result: string, choices: seq<string>, default: string) {
    || (exists i ::
          0 <= i < |choices| && choices[i] != "" && result == choices[i] && forall j :: 0 <= j < i ==> choices[j] == "")
    || (result == default && forall i :: 0 <= i < |choices| ==> choices[i] == "")
  }

  /** The first field that holds a port gives it. */
  ghost predicate FirstPort(result: Option<int>, choices: seq<Any>) {
    || (exists i :: 0 <= i < |choices| && ParsePort(choices[i]).Some? && result == ParsePort(choices[i])
                    && forall j :: 0 <= j < i ==> ParsePort(choices[j]).None?)
    || (result.None? && forall i :: 0 <= i < |choices| ==> ParsePort(choices[i]).None?)
  }

  lemma FirstOfTwo(result: string, a: string, b: string, default: string)
    requires result == if a != "" then a else if b != "" then b else default
    ensures FirstGiven(result, [a, b], default)
  {
    var choices := [a, b];
    assert choices[0] == a && choices[1] == b;
  }

  lemma FirstOfFour(result: string, a: string, b: string, c: string, d: string)
    requires result == if a != "" then a else if b != "" then b else if c != "" then c else d
    ensures FirstGiven(result, [a, b, c, d], "")
  {
    var choices := [a, b, c, d];
    assert choices[0] == a && choices[1] == b && choices[2] == c && choices[3] == d;
  }

  lemma FirstOfFourPorts(result: Option<int>, a: Any, b: Any, c: Any, d: Any)
    requires result == if ParsePort(a).Some? then ParsePort(a) else if ParsePort(b).Some? then ParsePort(b)
                       else if ParsePort(c).Some? then ParsePort(c) else ParsePort(d)
    ensures FirstPort(result, [a, b, c, d])
  {
    var choices := [a, b, c, d];
    assert choices[0] == a && choices[1] == b && choices[2] == c && choices[3] == d;
    var i := if ParsePort(a).Some? then 0 else if ParsePort(b).Some? then 1 else if ParsePort(c).Some? then 2 else 3;
    assert forall j :: 0 <= j < i ==> ParsePort(choices[j]).None?;
    assert ParsePort(choices[i]).Some? ==> result == ParsePort(choices[i]);
  }

  /** The objects of a record, an absent one standing for one whose fields are empty. */
  function FirewallOf(d: LogRec): FirewallRec {
    if d.firewall.Some? then d.firewall.value else FirewallRec("", "", "", "")
  }

  function NetworkOf(d: LogRec): NetworkRec {
    if d.network.Some? then d.network.value else NetworkRec("", "", Null, "", Null, None, None)
  }

  function FromOf(d: LogRec): EndpointRec {
    if d.network.Some? && d.network.value.source.Some? then d.network.value.source.value else EndpointRec("", Null)
  }

  function ToOf(d: LogRec): EndpointRec {
    if d.network.Some? && d.network.value.destination.Some? then d.network.value.destination.value
    else EndpointRec("", Null)
  }

  /** A given user object comes out unchanged; without one the username is null. */
  lemma GivenUserIsKept(raw: RawEvent, d: LogRec, now: string)
    requires TrimSpace(raw.payload) != ""
    ensures var r := ParseJson(raw, Some(d), now);
            && r.Ok? && (d.user.Some? ==> r.value.user == d.user)
            && (d.user.None? ==> r.value.user == Some(UserInfo(None)))
            && r.value.timestamp == if d.timestamp != "" then d.timestamp else now
  {
  }

  /** Each given field of the source object is taken; the identifier may also come with the raw event. */
  lemma GivenSourceWins(raw: RawEvent, d: LogRec, now: string)
    requires TrimSpace(raw.payload) != ""
    ensures var r := ParseJson(raw, Some(d), now);
            var fallback := if raw.source != "" then raw.source else "json-source";
            && r.Ok?
            && (d.source.None? ==> r.value.source == SourceInfo("firewall", "generic", "json-firewall", fallback))
            && (d.source.Some? ==>
                  var given, source := d.source.value, r.value.source;
                  && source.kind == (if given.kind != "" then given.kind else "firewall")
                  && source.vendor == (if given.vendor != "" then given.vendor else "generic")
                  && source.product == (if given.product != "" then given.product else "json-firewall")
                  && source.identifier == (if given.identifier != "" then given.identifier else fallback))
  {
  }

  /** Top-level fields win over those of the firewall object; a severity is derived only if none is given. */
  lemma GivenEventWins(raw: RawEvent, d: LogRec, now: string)
    requires TrimSpace(raw.payload) != ""
    ensures var r := ParseJson(raw, Some(d), now);
            var fw := FirewallOf(d);
            && r.Ok?
            && var e := r.value.event;
            && FirstGiven(e.category, [d.category, fw.category], "network")
            && FirstGiven(e.action, [ToLower(d.action), ToLower(fw.action)], "unknown")
            && FirstGiven(e.severity, [d.severity, fw.severity],
                          if e.action == "deny" || e.action == "block" || e.action == "drop" then "high" else "info")
  {
    var e, fw := ParseJson(raw, Some(d), now).value.event, FirewallOf(d);
    FirstOfTwo(e.category, d.category, fw.category, "network");
    FirstOfTwo(e.action, ToLower(d.action), ToLower(fw.action), "unknown");
    FirstOfTwo(e.severity, d.severity, fw.severity,
               if e.action == "deny" || e.action == "block" || e.action == "drop" then "high" else "info");
  }

  /** The nested endpoint wins over the network object, that over the top level, and a short name over its alias. */
  lemma GivenNetworkWins(raw: RawEvent, d: LogRec, now: string)
    requires TrimSpace(raw.payload) != ""
    ensures var r := ParseJson(raw, Some(d), now);
            var net, from, to := NetworkOf(d), FromOf(d), ToOf(d);
            && r.Ok? && r.value.network.Some?
            && var n := r.value.network.value;
            && FirstGiven(n.srcIp, [from.ip, net.srcIp, d.srcIp, d.sourceIp], "")
            && FirstGiven(n.dstIp, [to.ip, net.dstIp, d.dstIp, d.destinationIp], "")
            && FirstPort(n.srcPort, [from.port, net.srcPort, d.srcPort, d.sourcePort])
            && FirstPort(n.dstPort, [to.port, net.dstPort, d.dstPort, d.destinationPort])
  {
    var n, net, from, to := ParseJson(raw, Some(d), now).value.network.value, NetworkOf(d), FromOf(d), ToOf(d);
    FirstOfFour(n.srcIp, from.ip, net.srcIp, d.srcIp, d.sourceIp);
    FirstOfFour(n.dstIp, to.ip, net.dstIp, d.dstIp, d.destinationIp);
    FirstOfFourPorts(n.srcPort, from.port, net.srcPort, d.srcPort, d.sourcePort);
    FirstOfFourPorts(n.dstPort, to.port, net.dstPort, d.dstPort, d.destinationPort);
  }

  /** The network object's protocol wins over the top level's, and that over the firewall object's. */
  lemma GivenProtocolWins(raw: RawEvent, d: LogRec, now: string)
    requires TrimSpace(raw.payload) != ""
    ensures var r := ParseJson(raw, Some(d), now);
            && r.Ok? && r.value.network.Some?
            && r.value.network.value.protocol ==
               (if NetworkOf(d).protocol != "" then ToUpper(NetworkOf(d).protocol)
                else if d.protocol != "" then ToUpper(d.protocol)
                else if FirewallOf(d).protocol != "" then ToUpper(FirewallOf(d).protocol)
                else "unknown")
  {
  }

  /** The parser fails on blank payloads and on those that do not decode. */
  lemma FailsExactly(raw: RawEvent, data: Option<LogRec>, now: string)
    ensures ParseJson(raw, data, now).Err? <==> All(raw.payload, IsSpace) || data.None?
  {
    TrimmedEmpty(raw.payload);
  }

  /** Numbers become ports by dropping their fraction, texts if they are numerals once trimmed. */
  lemma PortOf(n: nat, fraction: real, left: string, right: string)
    requires 0.0 <= fraction < 1.0 && n <= INT64_MAX && All(left, IsSpace) && All(right, IsSpace)
    ensures ParsePort(Float(n as real + fraction)) == Some(n)
            && ParsePort(Float(-(n as real + fraction))) == Some(-(n as int))
    ensures ParsePort(Int(n)) == Some(n) && ParsePort(Number(Itoa(n))) == Some(n)
    ensures ParsePort(Str(left + (Itoa(n) + right))) == Some(n)
    ensures ParsePort(Null).None? && ParsePort(Other).None?
  {
    AtoiOfItoa(n);
    assert IsDigit(Itoa(n)[0]) && IsDigit(Itoa(n)[|Itoa(n)| - 1]);
    TrimOf(left, Itoa(n), right);
    assert (n as real + fraction).Floor == n;
  }
}
