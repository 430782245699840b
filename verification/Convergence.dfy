/**
  Cross-format convergence: one firewall record, written as syslog, CSV or JSON, parses to one
  network info, event info and user.
*/
module Convergence {
  import opened Models
  import opened Text
  import opened Syslog
  import opened SyslogLines
  import Csv
  import JsonParser

  /** `verb` and `proto` may be in any case; addresses are made of digits and dots. */
  datatype Traffic = Traffic(verb: string, proto: string, srcIp: string, srcPort: nat, dstIp: string, dstPort: nat)

  predicate IsAddressChar(c: char) {
    IsDigit(c) || c == '.'
  }

  predicate IsVerb(verb: string) {
    IsDenyWord(ToUpper(verb)) || IsAllowWord(ToUpper(verb))
  }

  predicate Valid(t: Traffic) {
    && IsVerb(t.verb) && IsProtocolWord(ToUpper(t.proto))
    && All(t.srcIp, IsAddressChar) && All(t.dstIp, IsAddressChar) && t.srcPort <= INT64_MAX && t.dstPort <= INT64_MAX
  }

  /** What the three formats share: everything but time stamp and source. */
  datatype Core = Core(network: Option<NetworkInfo>, event: EventInfo, user: Option<UserInfo>)

  function CoreOf(e: ParsedEvent): Core {
    Core(e.network, e.event, e.user)
  }

  function CoreWith(t: Traffic, action: string, severity: string): Core {
    Core(Some(NetworkInfo(t.srcIp, Some(t.srcPort), t.dstIp, Some(t.dstPort), ToUpper(t.proto))),
         EventInfo("network", action, severity), Some(UserInfo(None)))
  }

  /** Syslog maps six verbs onto two actions. */
  function SyslogCore(t: Traffic): Core {
    if IsDenyWord(ToUpper(t.verb)) then CoreWith(t, "deny", "high") else CoreWith(t, "allow", "info")
  }

  /** CSV keeps the verb and knows one that is severe. */
  function CsvCore(t: Traffic): Core {
    CoreWith(t, ToLower(t.verb), if ToLower(t.verb) == "deny" then "high" else "info")
  }

  /** JSON keeps the verb and knows three that are severe. */
  function JsonCore(t: Traffic): Core {
    var action := ToLower(t.verb);
    CoreWith(t, action, if action == "deny" || action == "block" || action == "drop" then "high" else "info")
  }

  // ---------------------------------------------------------------- syslog

  predicate IsLetter(c: char) {
    IsUpper(c) || IsLower(c)
  }

  lemma LettersOnly(word: string)
    requires IsVerb(word) || IsProtocolWord(ToUpper(word))
    ensures All(word, IsLetter) && word != ""
  {
    var u := ToUpper(word);
    assert All(u, IsUpper);
    forall i | 0 <= i < |word| ensures IsLetter(word[i]) {
      assert u[i] == Upper(word[i]);
    }
  }

  function Address(ip: string, port: nat): string {
    ip + (":" + Itoa(port))
  }

  lemma AddressPunctuation(host: string, port: string)
    requires All(host, IsAddressChar) && All(port, IsDigit)
    ensures ':' !in host && ':' !in port && '[' !in host + (":" + port) && ']' !in host + (":" + port)
  {
    assert forall i :: 0 <= i < |host| ==> IsAddressChar(host[i]);
    assert forall i :: 0 <= i < |port| ==> IsDigit(port[i]);
  }

  lemma SplitHostPortOf(host: string, port: string)
    requires All(host, IsAddressChar) && All(port, IsDigit)
    ensures SplitHostPort(host + (":" + port)) == Some((host, port))
  {
    var s := host + (":" + port);
    AddressPunctuation(host, port);
    LastIndexOf(host, ':', port);
    assert s[..|host|] == host && s[|host| + 1..] == port;
    assert s[0] in s;
  }

  lemma AddressChars(ip: string, port: nat)
    requires All(ip, IsAddressChar)
    ensures Address(ip, port) != "" && All(Address(ip, port), NotSpace)
  {
    var s, digits := Address(ip, port), Itoa(port);
    forall i | 0 <= i < |s| ensures NotSpace(s[i]) {
      assert s[i] == if i < |ip| then ip[i] else if i == |ip| then ':' else digits[i - |ip| - 1];
      assert IsAddressChar(s[i]) || s[i] == ':';
    }
  }

  lemma AddressRoundTrip(ip: string, port: nat)
    requires All(ip, IsAddressChar) && port <= INT64_MAX
    ensures SplitIPAndPort(Address(ip, port)) == (ip, Some(port))
  {
    SplitHostPortOf(ip, Itoa(port));
    AtoiOfItoa(port);
  }

  /** verb, protocol, SRC= and DST= words with blanks between them. */
  function Items(t: Traffic, gaps: (string, string, string)): seq<Item> {
    [Item(Plain(t.verb), gaps.0), Item(Plain(t.proto), gaps.1),
     Item(KeyValue("SRC", Address(t.srcIp, t.srcPort)), gaps.2), Item(KeyValue("DST", Address(t.dstIp, t.dstPort)), "")]
  }

  predicate IsGap(s: string) {
    s != "" && All(s, IsBlank) && All(s, NotNewline)
  }

  lemma LettersAreWords(word: string)
    requires IsVerb(word) || IsProtocolWord(ToUpper(word))
    ensures WellMade(Plain(word)) && All(word, NotNewline)
  {
    LettersOnly(word);
    forall i | 0 <= i < |word| ensures NotSpace(word[i]) && word[i] != '=' && word[i] != '\n' {
      assert IsLetter(word[i]);
    }
  }

  lemma ItemsWellSpaced(t: Traffic, gaps: (string, string, string))
    requires Valid(t) && IsGap(gaps.0) && IsGap(gaps.1) && IsGap(gaps.2)
    ensures WellSpaced(Items(t, gaps))
  {
    LettersAreWords(t.verb);
    LettersAreWords(t.proto);
    AddressChars(t.srcIp, t.srcPort);
    AddressChars(t.dstIp, t.dstPort);
    assert All("SRC", IsKeyChar) && All("DST", IsKeyChar);
    var items := Items(t, gaps);
    assert WellMade(items[0].word) && WellMade(items[1].word) && WellMade(items[2].word) && WellMade(items[3].word);
  }

  lemma OneMore(item: Item, rest: seq<Item>)
    ensures Body([item] + rest) == WordText(item.word) + (item.gap + Body(rest))
    ensures PairsOf([item] + rest) ==
            (match item.word case KeyValue(key, value) => [Pair(key, value)] case Plain(_) => []) + PairsOf(rest)
    ensures TextsOf([item] + rest) == [WordText(item.word)] + TextsOf(rest)
  {
    assert ([item] + rest)[1..] == rest;
  }

  function SrcText(t: Traffic): string {
    WordText(KeyValue("SRC", Address(t.srcIp, t.srcPort)))
  }

  function DstText(t: Traffic): string {
    WordText(KeyValue("DST", Address(t.dstIp, t.dstPort)))
  }

  lemma ItemsUnfold(t: Traffic, gaps: (string, string, string))
    ensures Body(Items(t, gaps)) ==
            t.verb + (gaps.0 + (t.proto + (gaps.1 + (SrcText(t) + (gaps.2 + (DstText(t) + ""))))))
    ensures PairsOf(Items(t, gaps))
         == [Pair("SRC", Address(t.srcIp, t.srcPort)), Pair("DST", Address(t.dstIp, t.dstPort))]
    ensures TextsOf(Items(t, gaps)) == [t.verb, t.proto, SrcText(t), DstText(t)]
  {
    var a, b := Item(Plain(t.verb), gaps.0), Item(Plain(t.proto), gaps.1);
    var c := Item(KeyValue("SRC", Address(t.srcIp, t.srcPort)), gaps.2);
    var d := Item(KeyValue("DST", Address(t.dstIp, t.dstPort)), "");
    assert Items(t, gaps) == [a] + ([b] + ([c] + ([d] + [])));
    OneMore(d, []);
    OneMore(c, [d] + []);
    OneMore(b, [c] + ([d] + []));
    OneMore(a, [b] + ([c] + ([d] + [])));
    assert "" + "" == "";
  }

  /** A KEY=value word of a three-letter key is no verb and no protocol. */
  lemma KeyValueIsNoVerdict(v: Verdict, key: string, value: string)
    requires |key| == 3
    ensures Judge(v, WordText(KeyValue(key, value))) == v
  {
    var u := ToUpper(WordText(KeyValue(key, value)));
    assert WordText(KeyValue(key, value))[3] == '=' && u[3] == '=' && |u| >= 4;
  }

  lemma VerdictOf(t: Traffic)
    requires Valid(t)
    ensures JudgeAll([t.verb, t.proto, SrcText(t), DstText(t)])
         == Verdict(if IsDenyWord(ToUpper(t.verb)) then "deny" else "allow", ToUpper(t.proto))
  {
    var tokens := [t.verb, t.proto, SrcText(t), DstText(t)];
    assert tokens[..3] == [t.verb, t.proto, SrcText(t)] && tokens[..3][..2] == [t.verb, t.proto];
    assert [t.verb, t.proto][..1] == [t.verb] && [t.verb][..0] == [];
    var two := JudgeAll([t.verb, t.proto]);
    assert JudgeAll([t.verb]) == Judge(Verdict("unknown", "unknown"), t.verb);
    assert two == Judge(JudgeAll([t.verb]), t.proto);
    KeyValueIsNoVerdict(two, "SRC", Address(t.srcIp, t.srcPort));
    KeyValueIsNoVerdict(two, "DST", Address(t.dstIp, t.dstPort));
  }

  lemma UpperFixed(s: string)
    requires All(s, IsUpper)
    ensures ToUpper(s) == s
  {
  }

  /** The pairs of a record: an SRC and a DST word and no others. */
  lemma PairsOfRecord(x: string, y: string)
    ensures var pairs := [Pair("SRC", x), Pair("DST", y)];
            && Last(pairs, "SRC") == Some(x) && Last(pairs, "DST") == Some(y)
            && Last(pairs, "SPT").None? && Last(pairs, "DPT").None?
            && Last(pairs, "ACTION").None? && Last(pairs, "PROTO").None?
  {
    UpperFixed("SRC");
    UpperFixed("DST");
    var pairs := [Pair("SRC", x), Pair("DST", y)];
    assert ToUpper(pairs[0].key) == "SRC" && ToUpper(pairs[1].key) == "DST";
  }

  /** What is read off the words of a record is the record. */
  lemma RecordReadOff(t: Traffic, e: ParsedEvent, pairs: seq<Pair>, timestamp: string, identifier: string)
    requires Valid(t) && pairs == [Pair("SRC", Address(t.srcIp, t.srcPort)), Pair("DST", Address(t.dstIp, t.dstPort))]
    requires var judged := Verdict(if IsDenyWord(ToUpper(t.verb)) then "deny" else "allow", ToUpper(t.proto));
             ReadOff(e, pairs, judged, timestamp, identifier)
    ensures CoreOf(e) == SyslogCore(t) && e.timestamp == timestamp
  {
    PairsOfRecord(Address(t.srcIp, t.srcPort), Address(t.dstIp, t.dstPort));
    AddressRoundTrip(t.srcIp, t.srcPort);
    AddressRoundTrip(t.dstIp, t.dstPort);
  }

  lemma RecordIsLine(t: Traffic, h: Pieces, gaps: (string, string, string))
    requires Valid(t) && Syslog.WellFormed(h) && IsGap(gaps.0) && IsGap(gaps.1) && IsGap(gaps.2)
    ensures WellMadeLine(Some(h), Items(t, gaps)) && LineOf(Some(h), Items(t, gaps)) == Render(h, Body(Items(t, gaps)))
  {
    ItemsWellSpaced(t, gaps);
  }

  /** The syslog rendering of a record parses back to it, with any header and any blanks. */
  lemma SyslogParses(t: Traffic, h: Pieces, gaps: (string, string, string), raw: RawEvent, timeOf: string -> string)
    requires Valid(t) && Syslog.WellFormed(h) && IsGap(gaps.0) && IsGap(gaps.1) && IsGap(gaps.2)
    requires raw.payload == Render(h, Body(Items(t, gaps)))
    ensures ParseSyslog(raw, timeOf).Ok? && CoreOf(ParseSyslog(raw, timeOf).value) == SyslogCore(t)
    ensures ParseSyslog(raw, timeOf).value.timestamp == timeOf(Stamp(h))
  {
    RecordIsLine(t, h, gaps);
    LineParses(Some(h), Items(t, gaps), raw, timeOf);
    ItemsUnfold(t, gaps);
    VerdictOf(t);
    var e := ParseSyslog(raw, timeOf).value;
    RecordReadOff(t, e, PairsOf(Items(t, gaps)), timeOf(Stamp(h)), HostOf(Some(h), raw.source));
  }

  // ---------------------------------------------------------------- CSV

  /** Some column is called `name` and holds `value`, both up to surrounding space. */
  ghost predicate HasCell(header: seq<string>, row: seq<string>, name: string, value: string)
    requires |header| == |row|
  {
    exists i :: 0 <= i < |header| && Csv.Clean(header[i]) == name && TrimSpace(row[i]) == value
  }

  /** A table for the record: its columns in any order and case, further columns beside them. */
  ghost predicate Tabulates(header: seq<string>, row: seq<string>, t: Traffic) {
    && |header| == |row| && Csv.DistinctColumns(header)
    && HasCell(header, row, "action", t.verb) && HasCell(header, row, "protocol", t.proto)
    && HasCell(header, row, "src_ip", t.srcIp) && HasCell(header, row, "src_port", Itoa(t.srcPort))
    && HasCell(header, row, "dst_ip", t.dstIp) && HasCell(header, row, "dst_port", Itoa(t.dstPort))
    && (forall i :: 0 <= i < |header| ==> Csv.Clean(header[i]) !in {"category", "severity", "username"})
  }

  /** The plain table: the columns by name, the cells without space around them. */
  const PlainHeader := ["action", "protocol", "src_ip", "src_port", "dst_ip", "dst_port"]

  function PlainRow(t: Traffic): seq<string> {
    [t.verb, t.proto, t.srcIp, Itoa(t.srcPort), t.dstIp, Itoa(t.dstPort)]
  }

  lemma CleanIs(name: string)
    requires name != "" && forall i :: 0 <= i < |name| ==> IsLower(name[i]) || name[i] == '_'
    ensures Csv.Clean(name) == name
  {
    TrimIdle(name);
    assert ToLower(name) == name;
  }

  lemma CellsAreTrimmed(t: Traffic, i: nat)
    requires Valid(t) && i < 6
    ensures TrimSpace(PlainRow(t)[i]) == PlainRow(t)[i]
  {
    LettersOnly(t.verb);
    LettersOnly(t.proto);
    var cell := PlainRow(t)[i];
    assert forall k :: 0 <= k < |cell| ==> IsLetter(cell[k]) || IsAddressChar(cell[k]);
    TrimIdle(cell);
  }

  lemma PlainNames()
    ensures forall i :: 0 <= i < 6 ==> Csv.Clean(PlainHeader[i]) == PlainHeader[i]
  {
    CleanIs("action");
    CleanIs("protocol");
    CleanIs("src_ip");
    CleanIs("src_port");
    CleanIs("dst_ip");
    CleanIs("dst_port");
  }

  lemma PlainColumns()
    ensures Csv.DistinctColumns(PlainHeader)
    ensures forall i :: 0 <= i < |PlainHeader| ==> Csv.Clean(PlainHeader[i]) !in {"category", "severity", "username"}
  {
    PlainNames();
  }

  lemma PlainCell(t: Traffic, i: nat)
    requires Valid(t) && i < 6
    ensures HasCell(PlainHeader, PlainRow(t), PlainHeader[i], PlainRow(t)[i])
  {
    PlainNames();
    CellsAreTrimmed(t, i);
  }

  /** Every record has such a table. */
  lemma PlainTable(t: Traffic)
    requires Valid(t)
    ensures Tabulates(PlainHeader, PlainRow(t), t)
  {
    PlainColumns();
    PlainCell(t, 0);
    PlainCell(t, 1);
    PlainCell(t, 2);
    PlainCell(t, 3);
    PlainCell(t, 4);
    PlainCell(t, 5);
  }

  lemma CellIs(header: seq<string>, row: seq<string>, name: string, value: string)
    requires |header| == |row| && Csv.DistinctColumns(header) && HasCell(header, row, name, value)
    ensures name in Csv.ColMap(header, row) && Csv.ColMap(header, row)[name] == value
  {
    var i :| 0 <= i < |header| && Csv.Clean(header[i]) == name && TrimSpace(row[i]) == value;
    Csv.CellOfDistinct(header, row, i);
  }

  lemma NoCell(header: seq<string>, row: seq<string>, name: string)
    requires |header| == |row| && forall i :: 0 <= i < |header| ==> Csv.Clean(header[i]) != name
    ensures name !in Csv.ColMap(header, row)
  {
    Csv.RightmostColumnWins(header, row, name);
  }

  lemma CoreOfColumns(cols: map<string, string>, t: Traffic, source: string, now: string)
    requires Valid(t)
    requires Csv.Cell(cols, "action") == t.verb && Csv.Cell(cols, "protocol") == t.proto
    requires Csv.Cell(cols, "src_ip") == t.srcIp && Csv.Cell(cols, "src_port") == Itoa(t.srcPort)
    requires Csv.Cell(cols, "dst_ip") == t.dstIp && Csv.Cell(cols, "dst_port") == Itoa(t.dstPort)
    requires Csv.Cell(cols, "category") == Csv.Cell(cols, "severity") == Csv.Cell(cols, "username") == ""
    ensures CoreOf(Csv.Assemble(cols, source, now)) == CsvCore(t)
  {
    LettersOnly(t.verb);
    LettersOnly(t.proto);
    AtoiOfItoa(t.srcPort);
    AtoiOfItoa(t.dstPort);
  }

  lemma CsvParses(t: Traffic, header: seq<string>, row: seq<string>, raw: RawEvent, now: string)
    requires Valid(t) && Tabulates(header, row, t) && TrimSpace(raw.payload) != ""
    ensures var r := Csv.ParseCsv(raw, Some([header, row]), now); r.Ok? && CoreOf(r.value) == CsvCore(t)
  {
    CellIs(header, row, "action", t.verb);
    CellIs(header, row, "protocol", t.proto);
    CellIs(header, row, "src_ip", t.srcIp);
    CellIs(header, row, "src_port", Itoa(t.srcPort));
    CellIs(header, row, "dst_ip", t.dstIp);
    CellIs(header, row, "dst_port", Itoa(t.dstPort));
    NoCell(header, row, "category");
    NoCell(header, row, "severity");
    NoCell(header, row, "username");
    CoreOfColumns(Csv.ColMap(header, row), t, raw.source, now);
  }

  // ---------------------------------------------------------------- JSON

  /** How a port may be written: a number, or a numeral in a string. */
  predicate Writes(v: JsonParser.Any, port: nat) {
    v == JsonParser.Float(port as real) || v == JsonParser.Str(Itoa(port))
  }

  datatype Shape = Flat | Aliased | NestedFields | NestedEndpoints

  /** A decoded JSON log for the record in each of the accepted shapes. */
  predicate Encodes(d: JsonParser.LogRec, t: Traffic, shape: Shape) {
    var verb, proto := t.verb, t.proto;
    && d.user.None? && d.category == "" && d.severity == ""
    && match shape
       case Flat =>
         && d.network.None? && d.firewall.None? && d.action == verb && d.protocol == proto
         && d.srcIp == t.srcIp && d.sourceIp == "" && Writes(d.srcPort, t.srcPort)
         && d.dstIp == t.dstIp && d.destinationIp == "" && Writes(d.dstPort, t.dstPort)
       case Aliased =>
         && d.network.None? && d.firewall.None? && d.action == verb && d.protocol == proto
         && d.srcIp == "" && d.sourceIp == t.srcIp && d.srcPort == JsonParser.Null && Writes(d.sourcePort, t.srcPort)
         && d.dstIp == "" && d.destinationIp == t.dstIp && d.dstPort == JsonParser.Null
         && Writes(d.destinationPort, t.dstPort)
       case NestedFields =>
         && TopLevelEmpty(d) && d.firewall == Some(JsonParser.FirewallRec(verb, "", "", ""))
         && d.network.Some? && d.network.value.source.None? && d.network.value.destination.None?
         && d.network.value.protocol == proto
         && d.network.value.srcIp == t.srcIp && Writes(d.network.value.srcPort, t.srcPort)
         && d.network.value.dstIp == t.dstIp && Writes(d.network.value.dstPort, t.dstPort)
       case NestedEndpoints =>
         && TopLevelEmpty(d) && d.firewall == Some(JsonParser.FirewallRec(verb, proto, "", ""))
         && d.network.Some? && d.network.value.source.Some? && d.network.value.destination.Some?
         && d.network.value.protocol == "" && d.network.value.srcIp == "" && d.network.value.dstIp == ""
         && d.network.value.source.value.ip == t.srcIp && Writes(d.network.value.source.value.port, t.srcPort)
         && d.network.value.destination.value.ip == t.dstIp && Writes(d.network.value.destination.value.port, t.dstPort)
  }

  predicate TopLevelEmpty(d: JsonParser.LogRec) {
    d.action == "" && d.protocol == "" && d.srcIp == "" && d.sourceIp == "" && d.dstIp == "" && d.destinationIp == ""
  }

  lemma NumeralIsTrimmed(port: nat)
    ensures TrimSpace(Itoa(port)) == Itoa(port)
  {
    var s := Itoa(port);
    assert IsDigit(s[0]) && IsDigit(s[|s| - 1]);
    TrimIdle(s);
  }

  lemma WrittenPort(v: JsonParser.Any, port: nat)
    requires Writes(v, port) && port <= INT64_MAX
    ensures JsonParser.ParsePort(v) == Some(port)
  {
    AtoiOfItoa(port);
    NumeralIsTrimmed(port);
    assert v.Float? ==> JsonParser.Truncate(v.r) == port;
  }

  lemma JsonParses(t: Traffic, d: JsonParser.LogRec, shape: Shape, raw: RawEvent, now: string)
    requires Valid(t) && Encodes(d, t, shape) && TrimSpace(raw.payload) != ""
    ensures var r := JsonParser.ParseJson(raw, Some(d), now); r.Ok? && CoreOf(r.value) == JsonCore(t)
  {
    LettersOnly(t.verb);
    LettersOnly(t.proto);
    match shape {
      case Flat =>
        WrittenPort(d.srcPort, t.srcPort);
        WrittenPort(d.dstPort, t.dstPort);
      case Aliased =>
        WrittenPort(d.sourcePort, t.srcPort);
        WrittenPort(d.destinationPort, t.dstPort);
      case NestedFields =>
        WrittenPort(d.network.value.srcPort, t.srcPort);
        WrittenPort(d.network.value.dstPort, t.dstPort);
      case NestedEndpoints =>
        WrittenPort(d.network.value.source.value.port, t.srcPort);
        WrittenPort(d.network.value.destination.value.port, t.dstPort);
    }
  }

  // ---------------------------------------------------------------- all three

  /** Lower-casing forgets the case that upper-casing chose. */
  lemma LowerOfUpper(s: string, u: string, l: string)
    requires ToUpper(s) == u && |u| == |l| && forall i :: 0 <= i < |u| ==> Lower(u[i]) == l[i]
    ensures ToLower(s) == l
  {
    forall i | 0 <= i < |s| ensures ToLower(s)[i] == l[i] {
      assert u[i] == Upper(s[i]);
    }
  }

  lemma LowerVerb(verb: string)
    requires IsVerb(verb)
    ensures ToUpper(verb) == "DENY" <==> ToLower(verb) == "deny"
    ensures ToUpper(verb) == "ALLOW" <==> ToLower(verb) == "allow"
    ensures ToLower(verb) == "deny" || ToLower(verb) == "drop" || ToLower(verb) == "block"
            ==> IsDenyWord(ToUpper(verb))
  {
    var u := ToUpper(verb);
    if u == "DENY" {
      LowerOfUpper(verb, u, "deny");
    } else if u == "DROP" {
      LowerOfUpper(verb, u, "drop");
    } else if u == "BLOCK" {
      LowerOfUpper(verb, u, "block");
    } else if u == "ALLOW" {
      LowerOfUpper(verb, u, "allow");
    } else if u == "ACCEPT" {
      LowerOfUpper(verb, u, "accept");
    } else {
      LowerOfUpper(verb, u, "permit");
    }
  }

  /**
    Three renderings of one record give the same network info, action, category, severity and user,
    if and only if the verb is deny or allow: the other four verbs that syslog knows come out
    differently.
  */
  lemma FormatsConvergeExactly(
    t: Traffic, h: Pieces, gaps: (string, string, string), raws: (RawEvent, RawEvent, RawEvent),
    timeOf: string -> string,
    header: seq<string>, row: seq<string>, d: JsonParser.LogRec, shape: Shape, now: string)
    requires Valid(t)
    requires Syslog.WellFormed(h) && IsGap(gaps.0) && IsGap(gaps.1) && IsGap(gaps.2)
             && raws.0.payload == Render(h, Body(Items(t, gaps)))
    requires Tabulates(header, row, t) && TrimSpace(raws.1.payload) != ""
    requires Encodes(d, t, shape) && TrimSpace(raws.2.payload) != ""
    ensures var s, c, j := ParseSyslog(raws.0, timeOf), Csv.ParseCsv(raws.1, Some([header, row]), now),
                           JsonParser.ParseJson(raws.2, Some(d), now);
            && s.Ok? && c.Ok? && j.Ok?
            && s.value.network == c.value.network == j.value.network && s.value.user == c.value.user == j.value.user
            && (CoreOf(s.value) == CoreOf(c.value) == CoreOf(j.value) <==>
                ToLower(t.verb) == "deny" || ToLower(t.verb) == "allow")
  {
    SyslogParses(t, h, gaps, raws.0, timeOf);
    CsvParses(t, header, row, raws.1, now);
    JsonParses(t, d, shape, raws.2, now);
    LowerVerb(t.verb);
  }
}
