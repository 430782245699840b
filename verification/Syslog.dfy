/** The syslog parser: its two regular expressions as scanners, its loops, and their round trips. */
module Syslog {
  import opened Models
  import opened Text

  // ---------------------------------------------------------------- (?i)\b([A-Z_]+)=([^\s]+)

  datatype Pair = Pair(key: string, value: string)

  predicate IsKeyChar(c: char) {
    IsUpper(c) || IsLower(c) || c == '_'
  }

  /** `s` begins with a match of key length `k` and value length `v`; `inWord` says that a \w character precedes it. */
  predicate IsMatch(s: string, inWord: bool, k: nat, v: nat) {
    && !inWord && 0 < k && 0 < v && k + 1 + v <= |s|
    && All(s[..k], IsKeyChar) && s[k] == '=' && All(s[k + 1..k + 1 + v], NotBlank)
    && Stops(s[k + 1 + v..], NotBlank)
  }

  /** The greedy match at the front of `s`: its key and value length. */
  function MatchHere(s: string, inWord: bool): (m: Option<(nat, nat)>)
    ensures m.Some? ==> IsMatch(s, inWord, m.value.0, m.value.1)
  {
    var k := Span(s, IsKeyChar);
    if inWord || k == 0 || k == |s| || s[k] != '=' then None
    else
      var v := Span(s[k + 1..], NotBlank);
      if v == 0 then None else Some((k, v))
  }

  /** The scanner misses no match, and a match is unique. */
  lemma MatchIsFound(s: string, inWord: bool, k: nat, v: nat)
    requires IsMatch(s, inWord, k, v)
    ensures MatchHere(s, inWord) == Some((k, v))
  {
    assert s == s[..k] + s[k..] && Stops(s[k..], IsKeyChar);
    SpanOf(s[..k], s[k..], IsKeyChar);
    assert s[k + 1..] == s[k + 1..k + 1 + v] + s[k + 1 + v..];
    SpanOf(s[k + 1..k + 1 + v], s[k + 1 + v..], NotBlank);
  }

  /** FindAllStringSubmatch: leftmost matches, not overlapping. */
  function FindAll(s: string, inWord: bool): seq<Pair>
    decreases |s|
  {
    if s == [] then []
    else
      match MatchHere(s, inWord)
      case Some((k, v)) => [Pair(s[..k], s[k + 1..k + 1 + v])] + FindAll(s[k + 1 + v..], IsWord(s[k + v]))
      case None => FindAll(s[1..], IsWord(s[0]))
  }

  // ---------------------------------------------------------------- ^(?:<\d+>)?(Mmm d+ dd:dd:dd)\s+(\S+)\s+(.*)$

  datatype Header = Header(stamp: string, host: string, body: string)

  predicate NotNewline(c: char) {
    c != '\n'
  }

  function SkipPriority(s: string): string {
    if s == [] || s[0] != '<' then s
    else
      var n := Span(s[1..], IsDigit);
      if n == 0 || 1 + n == |s| || s[1 + n] != '>' then s else s[n + 2..]
  }

  predicate IsClock(s: string) {
    && |s| == 8 && IsDigit(s[0]) && IsDigit(s[1]) && s[2] == ':' && IsDigit(s[3]) && IsDigit(s[4]) && s[5] == ':'
    && IsDigit(s[6]) && IsDigit(s[7])
  }

  predicate IsMonth(s: string) {
    |s| == 3 && IsUpper(s[0]) && IsLower(s[1]) && IsLower(s[2])
  }

  /** The rest of `s` after a non-empty run of `p`. */
  function After(s: string, p: char -> bool): (rest: Option<string>)
    ensures rest.Some? ==> |rest.value| < |s|
  {
    var n := Span(s, p);
    if n == 0 then None else Some(s[n..])
  }

  /** \s+dd:dd:dd : the rest of `s` after the clock. */
  function AfterClock(s: string): (rest: Option<string>)
    ensures rest.Some? ==> |rest.value| < |s|
  {
    match After(s, IsBlank)
    case None => None
    case Some(clock) => if |clock| < 8 || !IsClock(clock[..8]) then None else Some(clock[8..])
  }

  /** \s+\d+ : the rest of `s` after the day. */
  function AfterDay(s: string): (rest: Option<string>)
    ensures rest.Some? ==> |rest.value| < |s|
  {
    match After(s, IsBlank)
    case None => None
    case Some(day) => After(day, IsDigit)
  }

  /** The rest of `s` after the time stamp; the stamp is what precedes it. */
  function AfterStamp(s: string): (rest: Option<string>)
    ensures rest.Some? ==> |rest.value| < |s|
  {
    if |s| < 3 || !IsMonth(s[..3]) then None
    else match AfterDay(s[3..])
         case None => None
         case Some(time) => AfterClock(time)
  }

  /** \s+(\S+)\s+(.*)$ : the host and the body. */
  function ScanHost(s: string): Option<(string, string)> {
    match After(s, IsBlank)
    case None => None
    case Some(named) =>
      match After(named, NotBlank)
      case None => None
      case Some(tail) =>
        match After(tail, IsBlank)
        case None => None
        case Some(body) => if All(body, NotNewline) then Some((named[..|named| - |tail|], body)) else None
  }

  function ScanHeader(s: string): Option<Header> {
    var start := SkipPriority(s);
    match AfterStamp(start)
    case None => None
    case Some(rest) =>
      match ScanHost(rest)
      case None => None
      case Some((host, body)) => Some(Header(start[..|start| - |rest|], host, body))
  }

  // ---------------------------------------------------------------- addresses

  function LastIndex(s: string, c: char): (i: int)
    ensures -1 <= i < |s|
    ensures i >= 0 ==> s[i] == c && c !in s[i + 1..]
    ensures i < 0 ==> c !in s
  {
    if s == [] then -1 else if s[|s| - 1] == c then |s| - 1 else LastIndex(s[..|s| - 1], c)
  }

  function Index(s: string, c: char): (i: int)
    ensures -1 <= i < |s|
    ensures i >= 0 ==> s[i] == c && c !in s[..i]
    ensures i < 0 ==> c !in s
  {
    if s == [] then -1 else if s[0] == c then 0 else var i := Index(s[1..], c); if i < 0 then -1 else i + 1
  }

  /** net.SplitHostPort */
  function SplitHostPort(s: string): Option<(string, string)> {
    var i := LastIndex(s, ':');
    if i < 0 then None
    else if s[0] == '[' then
      var end := Index(s, ']');
      if end < 0 || end + 1 != i || '[' in s[1..] || ']' in s[end + 1..] then None
      else Some((s[1..end], s[i + 1..]))
    else if ':' in s[..i] || '[' in s || ']' in s then None
    else Some((s[..i], s[i + 1..]))
  }

  function SplitIPAndPort(s: string): (string, Option<int>) {
    match SplitHostPort(s)
    case Some((host, port)) => if Atoi(port).Some? then (host, Atoi(port)) else (s, None)
    case None => (s, None)
  }

  // ---------------------------------------------------------------- the parser

  /** What the token loop has found so far. */
  datatype Verdict = Verdict(action: string, protocol: string)

  function Judge(v: Verdict, token: string): Verdict {
    var t := ToUpper(token);
    if t == "DENY" || t == "DROP" || t == "BLOCK" then v.(action := "deny")
    else if t == "ALLOW" || t == "ACCEPT" || t == "PERMIT" then v.(action := "allow")
    else if t == "TCP" || t == "UDP" || t == "ICMP" then v.(protocol := t)
    else v
  }

  function JudgeAll(tokens: seq<string>): Verdict {
    if tokens == [] then Verdict("unknown", "unknown")
    else Judge(JudgeAll(tokens[..|tokens| - 1]), tokens[|tokens| - 1])
  }

  function KvMap(pairs: seq<Pair>): map<string, string> {
    if pairs == [] then map[]
    else KvMap(pairs[..|pairs| - 1])[ToUpper(pairs[|pairs| - 1].key) := pairs[|pairs| - 1].value]
  }

  function Endpoint(kv: map<string, string>, address: string, port: string): (string, Option<int>) {
    var (ip, p) := if address in kv then SplitIPAndPort(kv[address]) else ("", None);
    (ip, if port in kv && Atoi(kv[port]).Some? then Atoi(kv[port]) else p)
  }

  /** The event for a body with key-value map `kv` and token verdict `v`. */
  function Assemble(kv: map<string, string>, v: Verdict, timestamp: string, identifier: string): ParsedEvent {
    var action := if "ACTION" in kv then ToLower(kv["ACTION"]) else v.action;
    var protocol := if "PROTO" in kv then ToUpper(kv["PROTO"]) else v.protocol;
    var (srcIp, srcPort) := Endpoint(kv, "SRC", "SPT");
    var (dstIp, dstPort) := Endpoint(kv, "DST", "DPT");
    ParsedEvent(
      timestamp,
      SourceInfo("firewall", "generic", "syslog-firewall", identifier),
      EventInfo("network", action, if action == "deny" then "high" else "info"),
      Some(NetworkInfo(srcIp, srcPort, dstIp, dstPort, protocol)),
      Some(UserInfo(None)))
  }

  /** The payload's header, or the fallback without one. */
  function HeaderOf(raw: RawEvent, trimmed: string): Header {
    match ScanHeader(trimmed)
    case Some(h) => h
    case None => Header("", if raw.source == "" then "unknown-host" else raw.source, trimmed)
  }

  /** `timeOf` is parseSyslogTimestamp, which depends on the clock. */
  function ParseSyslog(raw: RawEvent, timeOf: string -> string): Result<ParsedEvent> {
    var trimmed := TrimSpace(raw.payload);
    if trimmed == "" then Err("empty syslog payload")
    else
      var h := HeaderOf(raw, trimmed);
      Ok(Assemble(KvMap(FindAll(h.body, false)), JudgeAll(Fields(h.body)), timeOf(h.stamp),
                  if raw.source == "" then h.host else raw.source))
  }

  method BuildKvMap(pairs: seq<Pair>) returns (kvMap: map<string, string>)
    ensures kvMap == KvMap(pairs)
  {
    kvMap := map[];
    for i := 0 to |pairs|
      invariant kvMap == KvMap(pairs[..i])
    {
      assert pairs[..i + 1][..i] == pairs[..i];
      kvMap := kvMap[ToUpper(pairs[i].key) := pairs[i].value];
    }
    assert pairs[..|pairs|] == pairs;
  }

  method ScanTokens(tokens: seq<string>) returns (action: string, protocol: string)
    ensures Verdict(action, protocol) == JudgeAll(tokens)
  {
    action, protocol := "unknown", "unknown";
    for i := 0 to |tokens|
      invariant Verdict(action, protocol) == JudgeAll(tokens[..i])
    {
      assert tokens[..i + 1][..i] == tokens[..i];
      var t := ToUpper(tokens[i]);
      if t == "DENY" || t == "DROP" || t == "BLOCK" {
        action := "deny";
      } else if t == "ALLOW" || t == "ACCEPT" || t == "PERMIT" {
        action := "allow";
      } else if t == "TCP" || t == "UDP" || t == "ICMP" {
        protocol := t;
      }
    }
    assert tokens[..|tokens|] == tokens;
  }

  method FillNetwork(kvMap: map<string, string>, protocol: string) returns (net: NetworkInfo)
    ensures var (srcIp, srcPort) := Endpoint(kvMap, "SRC", "SPT");
            var (dstIp, dstPort) := Endpoint(kvMap, "DST", "DPT");
            net == NetworkInfo(srcIp, srcPort, dstIp, dstPort, protocol)
    ensures "SPT" in kvMap && Atoi(kvMap["SPT"]).Some? ==> net.srcPort == Atoi(kvMap["SPT"])
    ensures "DPT" in kvMap && Atoi(kvMap["DPT"]).Some? ==> net.dstPort == Atoi(kvMap["DPT"])
    ensures "SRC" in kvMap ==> net.srcIp == SplitIPAndPort(kvMap["SRC"]).0
    ensures "DST" in kvMap ==> net.dstIp == SplitIPAndPort(kvMap["DST"]).0
  {
    net := NetworkInfo("", None, "", None, protocol);
    if "SRC" in kvMap {
      var (ip, port) := SplitIPAndPort(kvMap["SRC"]);
      net := net.(srcIp := ip);
      if port.Some? {
        net := net.(srcPort := port);
      }
    }
    if "SPT" in kvMap && Atoi(kvMap["SPT"]).Some? {
      net := net.(srcPort := Atoi(kvMap["SPT"]));
    }
    if "DST" in kvMap {
      var (ip, port) := SplitIPAndPort(kvMap["DST"]);
      net := net.(dstIp := ip);
      if port.Some? {
        net := net.(dstPort := port);
      }
    }
    if "DPT" in kvMap && Atoi(kvMap["DPT"]).Some? {
      net := net.(dstPort := Atoi(kvMap["DPT"]));
    }
  }

  method Parse(raw: RawEvent, timeOf: string -> string) returns (r: Result<ParsedEvent>)
    ensures r == ParseSyslog(raw, timeOf)
  {
    var trimmed := TrimSpace(raw.payload);
    if trimmed == "" {
      return Err("empty syslog payload");
    }
    var h := HeaderOf(raw, trimmed);
    var kvMap := BuildKvMap(FindAll(h.body, false));
    var action, protocol := ScanTokens(Fields(h.body));
    if "ACTION" in kvMap {
      action := ToLower(kvMap["ACTION"]);
    }
    if "PROTO" in kvMap {
      protocol := ToUpper(kvMap["PROTO"]);
    }
    var net := FillNetwork(kvMap, protocol);
    var severity := if action == "deny" then "high" else "info";
    var identifier := if raw.source == "" then h.host else raw.source;
    r := Ok(ParsedEvent(timeOf(h.stamp), SourceInfo("firewall", "generic", "syslog-firewall", identifier),
                        EventInfo("network", action, severity), Some(net), Some(UserInfo(None))));
  }

  // ---------------------------------------------------------------- round trips

  /** A body word: KEY=value, or a word without an equals sign. */
  datatype Word = KeyValue(key: string, value: string) | Plain(text: string)

  predicate WellMade(w: Word) {
    match w
    case KeyValue(key, value) => key != "" && All(key, IsKeyChar) && value != "" && All(value, NotSpace)
    case Plain(text) => text != "" && All(text, NotSpace) && '=' !in text
  }

  function WordText(w: Word): string {
    match w
    case KeyValue(key, value) => key + "=" + value
    case Plain(text) => text
  }

  /** Words, each followed by blanks; only the last may go without. */
  datatype Item = Item(word: Word, gap: string)

  predicate WellSpaced(items: seq<Item>) {
    && (forall i :: 0 <= i < |items| ==> WellMade(items[i].word) && All(items[i].gap, IsBlank))
    && (forall i :: 0 <= i < |items| - 1 ==> items[i].gap != "")
  }

  function Body(items: seq<Item>): string {
    if items == [] then "" else WordText(items[0].word) + (items[0].gap + Body(items[1..]))
  }

  function PairsOf(items: seq<Item>): seq<Pair> {
    if items == [] then []
    else (match items[0].word case KeyValue(key, value) => [Pair(key, value)] case Plain(_) => []) + PairsOf(items[1..])
  }

  function TextsOf(items: seq<Item>): seq<string> {
    if items == [] then [] else [WordText(items[0].word)] + TextsOf(items[1..])
  }

  lemma FindAllSkipsBlank(s: string, inWord: bool)
    requires s != "" && IsBlank(s[0])
    ensures FindAll(s, inWord) == FindAll(s[1..], false)
  {
    assert MatchHere(s, inWord).None?;
  }

  lemma {:induction false} FindAllSkipsGap(gap: string, tail: string, inWord: bool)
    requires All(gap, IsBlank)
    ensures FindAll(gap + tail, inWord) == FindAll(tail, if gap == "" then inWord else false)
  {
    if gap == "" {
      assert gap + tail == tail;
    } else {
      var s := gap + tail;
      assert s[0] == gap[0] && s[1..] == gap[1..] + tail;
      FindAllSkipsBlank(s, inWord);
      FindAllSkipsGap(gap[1..], tail, false);
    }
  }

  /** A word without an equals sign holds no match, wherever the scan enters it. */
  lemma {:induction false} FindAllSkipsPlain(text: string, tail: string, inWord: bool) returns (after: bool)
    requires '=' !in text && Stops(tail, NotBlank)
    ensures FindAll(text + tail, inWord) == FindAll(tail, after)
  {
    if text == "" {
      assert text + tail == tail;
      after := inWord;
    } else {
      var s := text + tail;
      assert s[0] == text[0] && s[1..] == text[1..] + tail;
      var k := Span(s, IsKeyChar);
      assert tail != [] ==> s[|text|] == tail[0] && !IsKeyChar(tail[0]);
      assert k <= |text| && (k < |text| ==> s[k] == text[k] && text[k] in text);
      after := FindAllSkipsPlain(text[1..], tail, IsWord(s[0]));
    }
  }

  lemma FindAllTakesPair(key: string, value: string, tail: string)
    requires WellMade(KeyValue(key, value)) && Stops(tail, NotBlank)
    ensures exists after :: FindAll(WordText(KeyValue(key, value)) + tail, false)
                            == [Pair(key, value)] + FindAll(tail, after)
  {
    var s := WordText(KeyValue(key, value)) + tail;
    var k, v := |key|, |value|;
    assert s[..k] == key && s[k] == '=' && s[k + 1..k + 1 + v] == value && s[k + 1 + v..] == tail;
    MatchIsFound(s, false, k, v);
    assert FindAll(s, false) == [Pair(key, value)] + FindAll(tail, IsWord(s[k + v]));
  }

  /** Extraction returns exactly the KEY=value words, in order, and the fields are the words. */
  lemma {:induction false} BodyRoundTrip(items: seq<Item>)
    requires WellSpaced(items)
    ensures FindAll(Body(items), false) == PairsOf(items)
    ensures Fields(Body(items)) == TextsOf(items)
  {
    if items != [] {
      var word, gap, rest := items[0].word, items[0].gap, Body(items[1..]);
      BodyRoundTrip(items[1..]);
      TailStops(items);
      FieldsOfWord(WordText(word), gap + rest);
      assert All(gap, IsSpace);
      FieldsOfGap(gap, rest);
      PairsOfFirst(word, gap, rest);
    }
  }

  lemma TailStops(items: seq<Item>)
    requires WellSpaced(items) && items != []
    ensures var tail := items[0].gap + Body(items[1..]);
            Stops(tail, NotBlank) && Stops(tail, NotSpace) && (items[0].gap == "" ==> Body(items[1..]) == "")
    ensures WordText(items[0].word) != "" && All(WordText(items[0].word), NotSpace)
  {
    assert items[0].gap != "" ==> (items[0].gap + Body(items[1..]))[0] == items[0].gap[0];
    match items[0].word {
      case KeyValue(key, value) =>
        var s := key + "=" + value;
        forall i | 0 <= i < |s| ensures NotSpace(s[i]) {
          assert s[i] == if i < |key| then key[i] else if i == |key| then '=' else value[i - |key| - 1];
        }
      case Plain(_) =>
    }
  }

  lemma PairsOfFirst(word: Word, gap: string, rest: string)
    requires WellMade(word) && All(gap, IsBlank) && (gap == "" ==> rest == "")
    ensures FindAll(WordText(word) + (gap + rest), false)
         == (match word case KeyValue(key, value) => [Pair(key, value)] case Plain(_) => []) + FindAll(rest, false)
  {
    var tail := gap + rest;
    assert gap != "" ==> tail[0] == gap[0];
    match word {
      case KeyValue(key, value) =>
        FindAllTakesPair(key, value, tail);
        var after :| FindAll(WordText(word) + tail, false) == [Pair(key, value)] + FindAll(tail, after);
        FindAllSkipsGap(gap, rest, after);
      case Plain(text) =>
        var after := FindAllSkipsPlain(text, tail, false);
        FindAllSkipsGap(gap, rest, after);
    }
  }

  /** The map is last-wins on upper-cased keys. */
  lemma {:induction false} KvMapIsLastWins(pairs: seq<Pair>, key: string)
    ensures key in KvMap(pairs) <==> exists i :: 0 <= i < |pairs| && ToUpper(pairs[i].key) == key
    ensures forall i | 0 <= i < |pairs| && ToUpper(pairs[i].key) == key ::
              (forall j :: i < j < |pairs| ==> ToUpper(pairs[j].key) != key) ==> KvMap(pairs)[key] == pairs[i].value
  {
    if pairs != [] {
      var n := |pairs| - 1;
      KvMapIsLastWins(pairs[..n], key);
      assert key in KvMap(pairs) ==> key == ToUpper(pairs[n].key) || key in KvMap(pairs[..n]);
      if key in KvMap(pairs[..n]) {
        var i :| 0 <= i < n && ToUpper(pairs[..n][i].key) == key;
        assert ToUpper(pairs[i].key) == key;
      }
    }
  }

  predicate IsDenyWord(t: string) {
    t == "DENY" || t == "DROP" || t == "BLOCK"
  }

  predicate IsAllowWord(t: string) {
    t == "ALLOW" || t == "ACCEPT" || t == "PERMIT"
  }

  predicate IsProtocolWord(t: string) {
    t == "TCP" || t == "UDP" || t == "ICMP"
  }

  /** The action is that of the last recognised action word; likewise the protocol. */
  lemma {:induction false} LastWordDecides(tokens: seq<string>, i: nat)
    requires i < |tokens|
    ensures (forall j :: i < j < |tokens| ==> !IsDenyWord(ToUpper(tokens[j])) && !IsAllowWord(ToUpper(tokens[j]))) ==>
              && (IsDenyWord(ToUpper(tokens[i])) ==> JudgeAll(tokens).action == "deny")
              && (IsAllowWord(ToUpper(tokens[i])) ==> JudgeAll(tokens).action == "allow")
    ensures IsProtocolWord(ToUpper(tokens[i])) && (forall j :: i < j < |tokens| ==> !IsProtocolWord(ToUpper(tokens[j])))
            ==> JudgeAll(tokens).protocol == ToUpper(tokens[i])
  {
    var n := |tokens| - 1;
    if i < n {
      LastWordDecides(tokens[..n], i);
      assert forall j :: 0 <= j < n ==> tokens[..n][j] == tokens[j];
    }
  }

  lemma {:induction false} UnrecognisedIsUnknown(tokens: seq<string>)
    ensures (forall i :: 0 <= i < |tokens| ==> !IsDenyWord(ToUpper(tokens[i])) && !IsAllowWord(ToUpper(tokens[i]))) ==>
              JudgeAll(tokens).action == "unknown"
    ensures (forall i :: 0 <= i < |tokens| ==> !IsProtocolWord(ToUpper(tokens[i]))) ==>
              JudgeAll(tokens).protocol == "unknown"
  {
    if tokens != [] {
      var n := |tokens| - 1;
      UnrecognisedIsUnknown(tokens[..n]);
      assert forall i :: 0 <= i < n ==> tokens[..n][i] == tokens[i];
    }
  }

  /**
    Action and protocol of a body: those of its last ACTION and PROTO words if it has any, else
    those of its other words.
  */
  lemma OverridesWin(items: seq<Item>, timestamp: string, identifier: string, key: string, i: int)
    requires WellSpaced(items) && (key == "ACTION" || key == "PROTO") && -1 <= i < |PairsOf(items)|
    requires i >= 0 ==> ToUpper(PairsOf(items)[i].key) == key
    requires forall j :: i < j < |PairsOf(items)| ==> ToUpper(PairsOf(items)[j].key) != key
    ensures var e := Assemble(KvMap(FindAll(Body(items), false)), JudgeAll(Fields(Body(items))), timestamp, identifier);
            var judged, pairs := JudgeAll(TextsOf(items)), PairsOf(items);
            var action := if i >= 0 then ToLower(pairs[i].value) else judged.action;
            var protocol := if i >= 0 then ToUpper(pairs[i].value) else judged.protocol;
            if key == "ACTION" then e.event.action == action else e.network.value.protocol == protocol
  {
    BodyRoundTrip(items);
    KvMapIsLastWins(PairsOf(items), key);
  }

  /** The pieces of a header, gaps between them. */
  datatype Pieces = Pieces(priority: Option<string>, month: string, gap1: string, day: string, gap2: string,
                           clock: string,
                           gap3: string, host: string, gap4: string)

  predicate WellFormed(h: Pieces) {
    && (h.priority.Some? ==> h.priority.value != "" && All(h.priority.value, IsDigit))
    && IsMonth(h.month) && h.day != "" && All(h.day, IsDigit) && IsClock(h.clock)
    && h.host != "" && All(h.host, NotBlank)
    && h.gap1 != "" && All(h.gap1, IsBlank) && h.gap2 != "" && All(h.gap2, IsBlank)
    && h.gap3 != "" && All(h.gap3, IsBlank) && h.gap4 != "" && All(h.gap4, IsBlank)
  }

  function Priority(h: Pieces): string {
    if h.priority.Some? then "<" + h.priority.value + ">" else ""
  }

  function Stamp(h: Pieces): string {
    h.month + (h.gap1 + (h.day + (h.gap2 + h.clock)))
  }

  function Render(h: Pieces, body: string): string {
    Priority(h) + (Stamp(h) + (h.gap3 + (h.host + (h.gap4 + body))))
  }

  lemma AfterOf(word: string, tail: string, p: char -> bool)
    requires word != "" && All(word, p) && Stops(tail, p)
    ensures After(word + tail, p) == Some(tail)
  {
    SpanOf(word, tail, p);
  }

  /** A prefix that starts unlike `p` stops a run of `p`, whatever follows. */
  lemma StopsBefore(word: string, tail: string, p: char -> bool)
    requires word != "" && !p(word[0])
    ensures Stops(word + tail, p)
  {
    assert (word + tail)[0] == word[0];
  }

  lemma AfterClockOf(h: Pieces, tail: string)
    requires WellFormed(h)
    ensures AfterClock(h.gap2 + (h.clock + tail)) == Some(tail)
  {
    var clock := h.clock + tail;
    StopsBefore(h.clock, tail, IsBlank);
    AfterOf(h.gap2, clock, IsBlank);
    assert clock[..8] == h.clock && clock[8..] == tail;
  }

  lemma AfterDayOf(h: Pieces, tail: string)
    requires WellFormed(h) && Stops(tail, IsDigit)
    ensures AfterDay(h.gap1 + (h.day + tail)) == Some(tail)
  {
    StopsBefore(h.day, tail, IsBlank);
    AfterOf(h.gap1, h.day + tail, IsBlank);
    AfterOf(h.day, tail, IsDigit);
  }

  lemma AfterStampOf(h: Pieces, tail: string)
    requires WellFormed(h)
    ensures AfterStamp(Stamp(h) + tail) == Some(tail)
  {
    var time := h.gap2 + (h.clock + tail);
    var day := h.gap1 + (h.day + time);
    var s := Stamp(h) + tail;
    assert s == h.month + day;
    assert s[..3] == h.month && s[3..] == day;
    StopsBefore(h.gap2, h.clock + tail, IsDigit);
    AfterDayOf(h, time);
    AfterClockOf(h, tail);
  }

  lemma SkipDigits(digits: string, tail: string)
    requires digits != "" && All(digits, IsDigit)
    ensures SkipPriority("<" + (digits + (">" + tail))) == tail
  {
    var s, rest := "<" + (digits + (">" + tail)), digits + (">" + tail);
    assert s[0] == '<' && s[1..] == rest;
    StopsBefore(">", tail, IsDigit);
    SpanOf(digits, ">" + tail, IsDigit);
    assert rest[|digits|] == '>' && rest[|digits| + 1..] == tail;
    assert s[1 + |digits|] == rest[|digits|] && s[|digits| + 2..] == rest[|digits| + 1..];
  }

  lemma SkipPriorityOf(h: Pieces, tail: string)
    requires WellFormed(h) && tail != "" && tail[0] != '<'
    ensures SkipPriority(Priority(h) + tail) == tail
  {
    if h.priority.Some? {
      SkipDigits(h.priority.value, tail);
      assert Priority(h) + tail == "<" + (h.priority.value + (">" + tail));
    } else {
      assert Priority(h) + tail == tail;
    }
  }

  lemma ScanHostOf(h: Pieces, body: string)
    requires WellFormed(h) && Stops(body, IsBlank) && All(body, NotNewline)
    ensures ScanHost(h.gap3 + (h.host + (h.gap4 + body))) == Some((h.host, body))
  {
    var tail := h.gap4 + body;
    var named := h.host + tail;
    StopsBefore(h.host, tail, IsBlank);
    AfterOf(h.gap3, named, IsBlank);
    StopsBefore(h.gap4, body, NotBlank);
    AfterOf(h.host, tail, NotBlank);
    AfterOf(h.gap4, body, IsBlank);
    assert named[..|named| - |tail|] == h.host;
  }

  /** Header round trip: the scanner returns the stamp, the host and the body it was given. */
  lemma HeaderRoundTrip(h: Pieces, body: string)
    requires WellFormed(h) && Stops(body, IsBlank) && All(body, NotNewline)
    ensures ScanHeader(Render(h, body)) == Some(Header(Stamp(h), h.host, body))
  {
    var rest := h.gap3 + (h.host + (h.gap4 + body));
    var start := Stamp(h) + rest;
    assert start[0] == h.month[0];
    SkipPriorityOf(h, start);
    AfterStampOf(h, rest);
    ScanHostOf(h, body);
    assert start[..|start| - |rest|] == Stamp(h);
  }

  lemma AfterInverse(s: string, p: char -> bool) returns (run: string)
    requires After(s, p).Some?
    ensures run != "" && All(run, p) && s == run + After(s, p).value && Stops(After(s, p).value, p)
  {
    run := s[..Span(s, p)];
  }

  lemma ClockInverse(s: string) returns (gap: string, clock: string)
    requires AfterClock(s).Some?
    ensures gap != "" && All(gap, IsBlank) && IsClock(clock) && s == gap + (clock + AfterClock(s).value)
  {
    gap := AfterInverse(s, IsBlank);
    clock := After(s, IsBlank).value[..8];
  }

  lemma DayInverse(s: string) returns (gap: string, day: string)
    requires AfterDay(s).Some?
    ensures gap != "" && All(gap, IsBlank) && day != "" && All(day, IsDigit) && s == gap + (day + AfterDay(s).value)
  {
    gap := AfterInverse(s, IsBlank);
    day := AfterInverse(After(s, IsBlank).value, IsDigit);
  }

  lemma HostInverse(s: string) returns (gap: string, host: string, gap': string, body: string)
    requires ScanHost(s).Some?
    ensures ScanHost(s) == Some((host, body)) && s == gap + (host + (gap' + body))
    ensures gap != "" && All(gap, IsBlank) && host != "" && All(host, NotBlank) && gap' != "" && All(gap', IsBlank)
    ensures Stops(body, IsBlank) && All(body, NotNewline)
  {
    gap := AfterInverse(s, IsBlank);
    var named := After(s, IsBlank).value;
    host := AfterInverse(named, NotBlank);
    var tail := After(named, NotBlank).value;
    gap' := AfterInverse(tail, IsBlank);
    body := After(tail, IsBlank).value;
    assert named[..|named| - |tail|] == host;
  }

  lemma PriorityInverse(s: string) returns (priority: Option<string>)
    ensures priority.Some? ==> priority.value != "" && All(priority.value, IsDigit)
    ensures s == (if priority.Some? then "<" + priority.value + ">" else "") + SkipPriority(s)
  {
    if SkipPriority(s) == s {
      priority := None;
    } else {
      var n := Span(s[1..], IsDigit);
      var digits := s[1..n + 1];
      priority := Some(digits);
      assert digits == s[1..][..n];
      assert s == "<" + digits + ">" + s[n + 2..];
    }
  }

  /** The time stamp of a scanned line, in pieces. */
  lemma StampInverse(s: string) returns (month: string, gap1: string, day: string, gap2: string, clock: string)
    requires AfterStamp(s).Some?
    ensures IsMonth(month) && gap1 != "" && All(gap1, IsBlank) && day != "" && All(day, IsDigit)
    ensures gap2 != "" && All(gap2, IsBlank) && IsClock(clock)
    ensures s == (month + (gap1 + (day + (gap2 + clock)))) + AfterStamp(s).value
  {
    month := s[..3];
    gap1, day := DayInverse(s[3..]);
    gap2, clock := ClockInverse(AfterDay(s[3..]).value);
    assert s == month + s[3..];
  }

  lemma {:induction false} ScannedIsRendered(s: string) returns (h: Pieces)
    requires ScanHeader(s).Some?
    ensures var header := ScanHeader(s).value;
            && WellFormed(h) && s == Render(h, header.body) && header.stamp == Stamp(h) && header.host == h.host
            && Stops(header.body, IsBlank) && All(header.body, NotNewline)
  {
    var start := SkipPriority(s);
    var priority := PriorityInverse(s);
    var month, gap1, day, gap2, clock := StampInverse(start);
    var rest := AfterStamp(start).value;
    var gap3, host, gap4, body := HostInverse(rest);
    h := Pieces(priority, month, gap1, day, gap2, clock, gap3, host, gap4);
    assert start == Stamp(h) + rest && start[..|start| - |rest|] == Stamp(h);
    assert s == Priority(h) + start;
  }

  /**
    The scanner finds a header exactly in the lines that are well-formed pieces put together, and
    finds those pieces.
  */
  lemma HeaderExactly(s: string, header: Header)
    ensures ScanHeader(s) == Some(header) <==>
            exists h :: WellFormed(h) && s == Render(h, header.body) && header.stamp == Stamp(h)
                        && header.host == h.host
                        && Stops(header.body, IsBlank) && All(header.body, NotNewline)
  {
    if ScanHeader(s) == Some(header) {
      var h := ScannedIsRendered(s);
    }
    forall h | WellFormed(h) && s == Render(h, header.body) && header.stamp == Stamp(h) && header.host == h.host
               && Stops(header.body, IsBlank) && All(header.body, NotNewline)
      ensures ScanHeader(s) == Some(header)
    {
      HeaderRoundTrip(h, header.body);
    }
  }
}
