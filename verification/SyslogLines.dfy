/**
  What the syslog parser makes of whole lines: a header, or none, before a body of well-made words.
  Every field of the event is read off the words of the line.
*/
module SyslogLines {
  import opened Models
  import opened Text
  import opened Syslog

  // ---------------------------------------------------------------- lines

  lemma AllOfBoth(a: string, b: string, p: char -> bool)
    requires All(a, p) && All(b, p)
    ensures All(a + b, p)
  {
    forall i | 0 <= i < |a + b| ensures p((a + b)[i]) {
      assert (a + b)[i] == if i < |a| then a[i] else b[i - |a|];
    }
  }

  lemma WordLine(w: Word)
    requires WellMade(w)
    ensures All(WordText(w), NotNewline)
  {
    match w {
      case KeyValue(key, value) =>
        assert All(key, NotNewline) && All("=", NotNewline) && All(value, NotNewline);
        AllOfBoth(key, "=", NotNewline);
        AllOfBoth(key + "=", value, NotNewline);
      case Plain(text) => assert All(text, NotNewline);
    }
  }

  /** A body of well-made words on one line. */
  lemma {:induction false} BodyIsOneLine(items: seq<Item>)
    requires WellSpaced(items) && forall i :: 0 <= i < |items| ==> All(items[i].gap, NotNewline)
    ensures All(Body(items), NotNewline)
  {
    if items != [] {
      BodyIsOneLine(items[1..]);
      AllOfBoth(items[0].gap, Body(items[1..]), NotNewline);
      WordLine(items[0].word);
      AllOfBoth(WordText(items[0].word), items[0].gap + Body(items[1..]), NotNewline);
    }
  }

  predicate EndsInWords(s: string) {
    s != "" && !IsSpace(s[0]) && !IsSpace(s[|s| - 1])
  }

  lemma WordEnds(word: string)
    requires word != "" && All(word, NotSpace)
    ensures EndsInWords(word)
  {
    assert NotSpace(word[0]) && NotSpace(word[|word| - 1]);
  }

  lemma EndsOf(a: string, gap: string, b: string)
    requires EndsInWords(a) && EndsInWords(b)
    ensures EndsInWords(a + (gap + b))
  {
    var s := a + (gap + b);
    assert s[0] == a[0] && s[|s| - 1] == b[|b| - 1];
  }

  /** A body whose last word has no gap begins and ends in a word. */
  lemma {:induction false} BodyEnds(items: seq<Item>)
    requires WellSpaced(items) && items != [] && items[|items| - 1].gap == ""
    ensures EndsInWords(Body(items))
  {
    var word, rest := WordText(items[0].word), items[1..];
    TailStops(items);
    WordEnds(word);
    if |items| == 1 {
      assert Body(items) == word;
    } else {
      assert rest[|rest| - 1] == items[|items| - 1];
      BodyEnds(rest);
      EndsOf(word, items[0].gap, Body(rest));
    }
  }

  lemma RenderedIsTrimmed(h: Pieces, body: string)
    requires WellFormed(h) && body != "" && !IsSpace(body[|body| - 1])
    ensures TrimSpace(Render(h, body)) == Render(h, body) && Render(h, body) != ""
  {
    var s := Render(h, body);
    assert s == (Priority(h) + (Stamp(h) + (h.gap3 + (h.host + h.gap4)))) + body;
    assert s[|s| - 1] == body[|body| - 1];
    assert s[0] == if h.priority.Some? then '<' else h.month[0];
    TrimIdle(s);
  }

  /** A line: a header or none, and words with blanks between them. */
  function LineOf(h: Option<Pieces>, items: seq<Item>): string {
    match h
    case Some(pieces) => Render(pieces, Body(items))
    case None => Body(items)
  }

  /** Without a header the words must not happen to look like one. */
  predicate WellMadeLine(h: Option<Pieces>, items: seq<Item>) {
    && WellSpaced(items) && items != [] && items[|items| - 1].gap == ""
    && (forall i :: 0 <= i < |items| ==> All(items[i].gap, NotNewline))
    && (h.Some? ==> WellFormed(h.value)) && (h.None? ==> ScanHeader(Body(items)).None?)
  }

  /** The whole of a line without a header is its body, and its source the host. */
  function HostOf(h: Option<Pieces>, source: string): string {
    if source != "" then source else if h.Some? then h.value.host else "unknown-host"
  }

  lemma LineScans(h: Option<Pieces>, items: seq<Item>, raw: RawEvent)
    requires WellMadeLine(h, items) && raw.payload == LineOf(h, items)
    ensures TrimSpace(raw.payload) == raw.payload != ""
    ensures var header := HeaderOf(raw, raw.payload);
            && header.body == Body(items) && header.stamp == (if h.Some? then Stamp(h.value) else "")
            && (if raw.source == "" then header.host else raw.source) == HostOf(h, raw.source)
  {
    BodyIsOneLine(items);
    BodyEnds(items);
    if h.Some? {
      RenderedIsTrimmed(h.value, Body(items));
      HeaderRoundTrip(h.value, Body(items));
    } else {
      TrimIdle(Body(items));
    }
  }

  // ---------------------------------------------------------------- the fields of the event

  /** The value of the last pair with that key, in whatever case it is written. */
  function Last(pairs: seq<Pair>, key: string): (value: Option<string>)
    ensures value.None? ==> forall i :: 0 <= i < |pairs| ==> ToUpper(pairs[i].key) != key
    ensures value.Some? ==> exists i :: 0 <= i < |pairs| && ToUpper(pairs[i].key) == key
                                        && pairs[i].value == value.value
                                        && forall j :: i < j < |pairs| ==> ToUpper(pairs[j].key) != key
  {
    if pairs == [] then None
    else
      var n := |pairs| - 1;
      if ToUpper(pairs[n].key) == key then Some(pairs[n].value)
      else
        var before := Last(pairs[..n], key);
        assert before.Some? ==> forall i :: 0 <= i < n ==> pairs[..n][i] == pairs[i];
        before
  }

  lemma LastIsMapped(pairs: seq<Pair>, key: string)
    ensures key in KvMap(pairs) <==> Last(pairs, key).Some?
    ensures Last(pairs, key).Some? ==> KvMap(pairs)[key] == Last(pairs, key).value
  {
    KvMapIsLastWins(pairs, key);
  }

  /** A port: the number given for it, if it is one, else that of the address. */
  predicate PortGiven(pairs: seq<Pair>, number: string, address: string, port: Option<int>) {
    if Last(pairs, number).Some? && Atoi(Last(pairs, number).value).Some? then port == Atoi(Last(pairs, number).value)
    else if Last(pairs, address).Some? then port == SplitIPAndPort(Last(pairs, address).value).1
    else port.None?
  }

  predicate AddressGiven(pairs: seq<Pair>, address: string, ip: string) {
    ip == if Last(pairs, address).Some? then SplitIPAndPort(Last(pairs, address).value).0 else ""
  }

  /** The event as the words of its line determine it; `judged` is what the words beside the pairs say. */
  predicate ReadOff(e: ParsedEvent, pairs: seq<Pair>, judged: Verdict, timestamp: string, identifier: string) {
    && e.timestamp == timestamp && e.source == SourceInfo("firewall", "generic", "syslog-firewall", identifier)
    && e.user == Some(UserInfo(None)) && e.event.category == "network"
    && e.event.action == (if Last(pairs, "ACTION").Some? then ToLower(Last(pairs, "ACTION").value) else judged.action)
    && e.event.severity == (if e.event.action == "deny" then "high" else "info")
    && e.network.Some?
    && var net := e.network.value;
    && net.protocol == (if Last(pairs, "PROTO").Some? then ToUpper(Last(pairs, "PROTO").value) else judged.protocol)
    && AddressGiven(pairs, "SRC", net.srcIp) && PortGiven(pairs, "SPT", "SRC", net.srcPort)
    && AddressGiven(pairs, "DST", net.dstIp) && PortGiven(pairs, "DPT", "DST", net.dstPort)
  }

  lemma EndpointIsGiven(pairs: seq<Pair>, address: string, number: string)
    ensures var (ip, port) := Endpoint(KvMap(pairs), address, number);
            AddressGiven(pairs, address, ip) && PortGiven(pairs, number, address, port)
  {
    LastIsMapped(pairs, address);
    LastIsMapped(pairs, number);
  }

  lemma AssembledIsReadOff(pairs: seq<Pair>, judged: Verdict, timestamp: string, identifier: string)
    ensures ReadOff(Assemble(KvMap(pairs), judged, timestamp, identifier), pairs, judged, timestamp, identifier)
  {
    EndpointIsGiven(pairs, "SRC", "SPT");
    EndpointIsGiven(pairs, "DST", "DPT");
    LastIsMapped(pairs, "ACTION");
    LastIsMapped(pairs, "PROTO");
  }

  /** Every field of the event that a well-made line parses to. */
  lemma LineParses(h: Option<Pieces>, items: seq<Item>, raw: RawEvent, timeOf: string -> string)
    requires WellMadeLine(h, items) && raw.payload == LineOf(h, items)
    ensures ParseSyslog(raw, timeOf).Ok?
    ensures ReadOff(ParseSyslog(raw, timeOf).value, PairsOf(items), JudgeAll(TextsOf(items)),
                    timeOf(if h.Some? then Stamp(h.value) else ""), HostOf(h, raw.source))
  {
    LineScans(h, items, raw);
    BodyRoundTrip(items);
    AssembledIsReadOff(PairsOf(items), JudgeAll(TextsOf(items)),
                       timeOf(if h.Some? then Stamp(h.value) else ""), HostOf(h, raw.source));
  }

  /** A numeral in the last SPT or DPT word is the port, whatever SRC and DST hold. */
  lemma NumberedPortWins(h: Option<Pieces>, items: seq<Item>, raw: RawEvent, timeOf: string -> string, n: nat)
    requires WellMadeLine(h, items) && raw.payload == LineOf(h, items) && n <= INT64_MAX
    ensures var r := ParseSyslog(raw, timeOf);
            && r.Ok? && r.value.network.Some?
            && (Last(PairsOf(items), "SPT") == Some(Itoa(n)) ==> r.value.network.value.srcPort == Some(n))
            && (Last(PairsOf(items), "DPT") == Some(Itoa(n)) ==> r.value.network.value.dstPort == Some(n))
  {
    LineParses(h, items, raw, timeOf);
    AtoiOfItoa(n);
  }

  /** The parser fails on blank payloads and on no others. */
  lemma FailsExactlyOnBlank(raw: RawEvent, timeOf: string -> string)
    ensures ParseSyslog(raw, timeOf).Err? <==> All(raw.payload, IsSpace)
  {
    TrimmedEmpty(raw.payload);
  }

  // ---------------------------------------------------------------- addresses that are not host:port

  /** Without a colon, or with several outside brackets, the text is all address. */
  lemma PlainAddress(s: string)
    requires s != "" && s[0] != '['
    requires ':' !in s || (exists i, j :: 0 <= i < j < |s| && s[i] == ':' && s[j] == ':')
    ensures SplitIPAndPort(s) == (s, None)
  {
    if ':' in s {
      var i, j :| 0 <= i < j < |s| && s[i] == ':' && s[j] == ':';
      var k := LastIndex(s, ':');
      assert forall x :: k < x < |s| ==> s[x] == s[k + 1..][x - k - 1];
      assert s[..k][i] == ':';
    }
  }

  /** A bracketed host, as IPv6 needs it, may hold colons. */
  lemma BracketedAddress(host: string, port: nat)
    requires '[' !in host && ']' !in host && port <= INT64_MAX
    ensures SplitIPAndPort("[" + (host + ("]:" + Itoa(port)))) == (host, Some(port))
  {
    AtoiOfItoa(port);
    BracketedSplit(host, Itoa(port));
  }

  lemma DigitsAreNoPunctuation(digits: string)
    requires All(digits, IsDigit)
    ensures ':' !in digits && '[' !in digits && ']' !in digits
  {
    forall i | 0 <= i < |digits| ensures digits[i] != ':' && digits[i] != '[' && digits[i] != ']' {
      assert IsDigit(digits[i]);
    }
  }

  lemma {:induction false} LastIndexOf(prefix: string, c: char, suffix: string)
    requires c !in suffix
    ensures LastIndex(prefix + ([c] + suffix), c) == |prefix|
  {
    var s := prefix + ([c] + suffix);
    if suffix != [] {
      var n := |suffix| - 1;
      assert s[|s| - 1] == suffix[n] && suffix[n] in suffix;
      assert s[..|s| - 1] == prefix + ([c] + suffix[..n]);
      LastIndexOf(prefix, c, suffix[..n]);
    }
  }

  lemma {:induction false} FirstIndexOf(prefix: string, c: char, suffix: string)
    requires c !in prefix
    ensures Index(prefix + ([c] + suffix), c) == |prefix|
  {
    var s := prefix + ([c] + suffix);
    if prefix != "" {
      assert s[0] == prefix[0] && prefix[0] in prefix && s[1..] == prefix[1..] + ([c] + suffix);
      FirstIndexOf(prefix[1..], c, suffix);
    }
  }

  lemma NotInBoth(a: string, b: string, c: char)
    requires c !in a && c !in b
    ensures c !in a + b
  {
  }

  /** Where the punctuation of a bracketed address stands. */
  lemma BracketedPunctuation(host: string, port: string)
    requires '[' !in host && ']' !in host && All(port, IsDigit)
    ensures var s, n := "[" + (host + ("]:" + port)), |host|;
            && LastIndex(s, ':') == n + 2 && Index(s, ']') == n + 1 && '[' !in s[1..] && ']' !in s[n + 2..]
  {
    var s, n := "[" + (host + ("]:" + port)), |host|;
    DigitsAreNoPunctuation(port);
    assert s == ("[" + host + "]") + ([':'] + port);
    LastIndexOf("[" + host + "]", ':', port);
    assert s == ("[" + host) + ([']'] + (":" + port));
    FirstIndexOf("[" + host, ']', ":" + port);
    NotInBoth("]:", port, '[');
    NotInBoth(host, "]:" + port, '[');
    assert s[1..] == host + ("]:" + port);
    NotInBoth(":", port, ']');
    assert s[n + 2..] == ":" + port;
  }

  lemma BracketedSplit(host: string, port: string)
    requires '[' !in host && ']' !in host && All(port, IsDigit)
    ensures SplitHostPort("[" + (host + ("]:" + port))) == Some((host, port))
  {
    var s, n := "[" + (host + ("]:" + port)), |host|;
    BracketedPunctuation(host, port);
    assert s[0] == '[' && s[1..n + 1] == host && s[n + 3..] == port;
  }
}
