/** The CSV parser, from the records that encoding/csv returns. */
module Csv {
  import opened Models
  import opened Text
  import opened Counting

  function Clean(column: string): string {
    ToLower(TrimSpace(column))
  }

  /** The column map: cells by cleaned column name, later columns overwriting earlier ones. */
  function ColMap(header: seq<string>, row: seq<string>): map<string, string>
    requires |header| == |row|
  {
    if header == [] then map[]
    else
      var n := |header| - 1;
      ColMap(header[..n], row[..n])[Clean(header[n]) := TrimSpace(row[n])]
  }

  /** A Go map read: missing keys are empty strings. */
  function Cell(cols: map<string, string>, name: string): string {
    if name in cols then cols[name] else ""
  }

  function OrElse(s: string, default: string): string {
    if s == "" then default else s
  }

  function PortCell(cols: map<string, string>, name: string): Option<int> {
    if Cell(cols, name) == "" then None else Atoi(cols[name])
  }

  function Assemble(cols: map<string, string>, source: string, now: string): ParsedEvent {
    var action := OrElse(ToLower(Cell(cols, "action")), "unknown");
    var username := Cell(cols, "username");
    ParsedEvent(
      OrElse(Cell(cols, "timestamp"), now),
      SourceInfo("firewall", "generic", "csv-firewall", OrElse(Cell(cols, "source"), OrElse(source, "csv-source"))),
      EventInfo(OrElse(Cell(cols, "category"), "network"), action,
                OrElse(Cell(cols, "severity"), if action == "deny" then "high" else "info")),
      Some(NetworkInfo(Cell(cols, "src_ip"), PortCell(cols, "src_port"), Cell(cols, "dst_ip"),
                       PortCell(cols, "dst_port"),
                       OrElse(ToUpper(Cell(cols, "protocol")), "unknown"))),
      Some(UserInfo(if username == "" then None else Some(username))))
  }

  /** `records` is None when the reader rejects the payload. */
  function ParseCsv(raw: RawEvent, records: Option<seq<seq<string>>>, now: string): Result<ParsedEvent> {
    if TrimSpace(raw.payload) == "" then Err("empty CSV payload")
    else match records
         case None => Err("invalid CSV format")
         case Some(rs) =>
           if |rs| < 2 then Err("CSV must contain at least a header row and one data row")
           else if |rs[0]| != |rs[1]| then Err("header column count does not match data row column count")
           else Ok(Assemble(ColMap(rs[0], rs[1]), raw.source, now))
  }

  method BuildColMap(header: seq<string>, row: seq<string>) returns (cols: map<string, string>)
    requires |header| == |row|
    ensures cols == ColMap(header, row)
  {
    cols := map[];
    for i := 0 to |header|
      invariant cols == ColMap(header[..i], row[..i])
    {
      assert header[..i + 1][..i] == header[..i] && row[..i + 1][..i] == row[..i];
      cols := cols[Clean(header[i]) := TrimSpace(row[i])];
    }
    assert header[..|header|] == header && row[..|row|] == row;
  }

  method FillNetwork(cols: map<string, string>) returns (net: NetworkInfo)
    ensures Some(net) == Assemble(cols, "", "").network
  {
    var protocol := ToUpper(Cell(cols, "protocol"));
    if protocol == "" {
      protocol := "unknown";
    }
    net := NetworkInfo(Cell(cols, "src_ip"), None, Cell(cols, "dst_ip"), None, protocol);
    if "src_port" in cols && cols["src_port"] != "" {
      net := net.(srcPort := Atoi(cols["src_port"]));
    }
    if "dst_port" in cols && cols["dst_port"] != "" {
      net := net.(dstPort := Atoi(cols["dst_port"]));
    }
  }

  method FillEvent(cols: map<string, string>, source: string, now: string) returns (event: ParsedEvent)
    ensures event == Assemble(cols, source, now)
  {
    var ts := Cell(cols, "timestamp");
    if ts == "" {
      ts := now;
    }
    var action := ToLower(Cell(cols, "action"));
    if action == "" {
      action := "unknown";
    }
    var category := Cell(cols, "category");
    if category == "" {
      category := "network";
    }
    var severity := Cell(cols, "severity");
    if severity == "" {
      severity := if action == "deny" then "high" else "info";
    }
    var identifier := source;
    if Cell(cols, "source") != "" {
      identifier := cols["source"];
    }
    if identifier == "" {
      identifier := "csv-source";
    }
    var net := FillNetwork(cols);
    var user := UserInfo(None);
    if "username" in cols && cols["username"] != "" {
      user := UserInfo(Some(cols["username"]));
    }
    event := ParsedEvent(ts, SourceInfo("firewall", "generic", "csv-firewall", identifier),
                         EventInfo(category, action, severity), Some(net), Some(user));
  }

  method Parse(raw: RawEvent, records: Option<seq<seq<string>>>, now: string) returns (r: Result<ParsedEvent>)
    ensures r == ParseCsv(raw, records, now)
  {
    if TrimSpace(raw.payload) == "" {
      return Err("empty CSV payload");
    }
    if records.None? {
      return Err("invalid CSV format");
    }
    if |records.value| < 2 {
      return Err("CSV must contain at least a header row and one data row");
    }
    var header, row := records.value[0], records.value[1];
    if |header| != |row| {
      return Err("header column count does not match data row column count");
    }
    var cols := BuildColMap(header, row);
    var event := FillEvent(cols, raw.source, now);
    r := Ok(event);
  }

  // ---------------------------------------------------------------- column order

  /** The position of the right-most column called `name`, or -1. */
  function LastColumn(header: seq<string>, name: string): (i: int)
    ensures -1 <= i < |header|
    ensures i >= 0 ==> Clean(header[i]) == name
    ensures forall j :: i < j < |header| ==> Clean(header[j]) != name
  {
    if header == [] then -1
    else if Clean(header[|header| - 1]) == name then |header| - 1
    else LastColumn(header[..|header| - 1], name)
  }

  /** A name is a key exactly if a column carries it, and the right-most such column gives its cell. */
  lemma {:induction false} RightmostColumnWins(header: seq<string>, row: seq<string>, name: string)
    requires |header| == |row|
    ensures var i := LastColumn(header, name);
            (name in ColMap(header, row) <==> i >= 0) && (i >= 0 ==> ColMap(header, row)[name] == TrimSpace(row[i]))
  {
    if header != [] {
      var n := |header| - 1;
      RightmostColumnWins(header[..n], row[..n], name);
    }
  }

  predicate DistinctColumns(header: seq<string>) {
    forall i, j :: 0 <= i < j < |header| ==> Clean(header[i]) != Clean(header[j])
  }

  /** `order` lists each of the first |order| positions once. */
  predicate IsPermutation(order: seq<nat>) {
    && (forall i :: 0 <= i < |order| ==> order[i] < |order|)
    && (forall i, j :: 0 <= i < j < |order| ==> order[i] != order[j])
  }

  function Permute(cells: seq<string>, order: seq<nat>): (r: seq<string>)
    requires |order| == |cells| && IsPermutation(order)
    ensures |r| == |cells| && forall i :: 0 <= i < |r| ==> r[i] == cells[order[i]]
  {
    seq(|cells|, i requires 0 <= i < |cells| => cells[order[i]])
  }

  lemma {:induction false} DistinctCount(order: seq<nat>)
    requires forall i, j :: 0 <= i < j < |order| ==> order[i] != order[j]
    ensures |set i | 0 <= i < |order| :: order[i]| == |order|
  {
    var all := set i | 0 <= i < |order| :: order[i];
    if order == [] {
      assert all == {};
    } else {
      var n := |order| - 1;
      var init := set i | 0 <= i < n :: order[..n][i];
      DistinctCount(order[..n]);
      assert all == init + {order[n]} && order[n] !in init;
    }
  }

  /** Every position occurs in a permutation. */
  lemma PositionOf(order: seq<nat>, x: nat) returns (i: nat)
    requires IsPermutation(order) && x < |order|
    ensures i < |order| && order[i] == x
  {
    var all := set i | 0 <= i < |order| :: order[i];
    DistinctCount(order);
    Pigeonhole(all, |order|);
    assert x in all;
    i :| 0 <= i < |order| && order[i] == x;
  }

  lemma CellOfDistinct(header: seq<string>, row: seq<string>, i: nat)
    requires |header| == |row| && DistinctColumns(header) && i < |header|
    ensures Clean(header[i]) in ColMap(header, row) && ColMap(header, row)[Clean(header[i])] == TrimSpace(row[i])
  {
    RightmostColumnWins(header, row, Clean(header[i]));
  }

  lemma SameColMap(header: seq<string>, row: seq<string>, order: seq<nat>)
    requires |header| == |row| == |order| && DistinctColumns(header) && IsPermutation(order)
    ensures ColMap(Permute(header, order), Permute(row, order)) == ColMap(header, row)
  {
    var header', row' := Permute(header, order), Permute(row, order);
    var a, b := ColMap(header, row), ColMap(header', row');
    assert DistinctColumns(header') by {
      forall i, j | 0 <= i < j < |header'| ensures Clean(header'[i]) != Clean(header'[j]) {
        assert order[i] != order[j];
      }
    }
    forall name | name in a ensures name in b && a[name] == b[name] {
      RightmostColumnWins(header, row, name);
      var x := LastColumn(header, name);
      var i := PositionOf(order, x);
      CellOfDistinct(header, row, x);
      CellOfDistinct(header', row', i);
    }
    forall name | name in b ensures name in a {
      RightmostColumnWins(header', row', name);
      CellOfDistinct(header, row, order[LastColumn(header', name)]);
    }
  }

  /** Reordering the columns, header and row together, leaves the parsed event unchanged. */
  lemma ColumnOrderIsIrrelevant(raw: RawEvent, header: seq<string>, row: seq<string>, order: seq<nat>, now: string)
    requires |header| == |row| == |order| && DistinctColumns(header) && IsPermutation(order)
    ensures ParseCsv(raw, Some([Permute(header, order), Permute(row, order)]), now)
         == ParseCsv(raw, Some([header, row]), now)
  {
    SameColMap(header, row, order);
  }

  // ---------------------------------------------------------------- given cells

  /** What the right-most column of that name holds, up to surrounding space; nothing if there is none. */
  function CellOf(header: seq<string>, row: seq<string>, name: string): string
    requires |header| == |row|
  {
    var i := LastColumn(header, name);
    if i < 0 then "" else TrimSpace(row[i])
  }

  lemma CellIsOf(header: seq<string>, row: seq<string>, name: string)
    requires |header| == |row|
    ensures Cell(ColMap(header, row), name) == CellOf(header, row, name)
  {
    RightmostColumnWins(header, row, name);
  }

  predicate Chosen(result: string, cell: string, default: string) {
    result == if cell != "" then cell else default
  }

  /** Every field of the event is what its column holds, or a default if the column is empty or missing. */
  lemma GivenCellsWin(raw: RawEvent, header: seq<string>, row: seq<string>, now: string)
    requires |header| == |row| && TrimSpace(raw.payload) != ""
    ensures var r := ParseCsv(raw, Some([header, row]), now);
            && r.Ok? && r.value.network.Some?
            && var e, net := r.value, r.value.network.value;
            && Chosen(e.timestamp, CellOf(header, row, "timestamp"), now)
            && Chosen(e.event.category, CellOf(header, row, "category"), "network")
            && Chosen(e.event.action, ToLower(CellOf(header, row, "action")), "unknown")
            && Chosen(e.event.severity, CellOf(header, row, "severity"), if e.event.action == "deny" then "high"
                      else "info")
            && e.source.kind == "firewall" && e.source.vendor == "generic" && e.source.product == "csv-firewall"
            && Chosen(e.source.identifier, CellOf(header, row, "source"), if raw.source != "" then raw.source
                      else "csv-source")
            && Chosen(net.protocol, ToUpper(CellOf(header, row, "protocol")), "unknown")
            && net.srcIp == CellOf(header, row, "src_ip") && net.dstIp == CellOf(header, row, "dst_ip")
  {
    CellIsOf(header, row, "timestamp");
    CellIsOf(header, row, "category");
    CellIsOf(header, row, "action");
    CellIsOf(header, row, "severity");
    CellIsOf(header, row, "source");
    CellIsOf(header, row, "protocol");
    CellIsOf(header, row, "src_ip");
    CellIsOf(header, row, "dst_ip");
  }

  /** Numerals become ports and everything else none; a given username is kept, an empty one is null. */
  lemma GivenPortsAndUserWin(raw: RawEvent, header: seq<string>, row: seq<string>, now: string)
    requires |header| == |row| && TrimSpace(raw.payload) != ""
    ensures var r := ParseCsv(raw, Some([header, row]), now);
            var username := CellOf(header, row, "username");
            && r.Ok? && r.value.network.Some?
            && r.value.network.value.srcPort == Atoi(CellOf(header, row, "src_port"))
            && r.value.network.value.dstPort == Atoi(CellOf(header, row, "dst_port"))
            && r.value.user == Some(UserInfo(if username != "" then Some(username) else None))
  {
    CellIsOf(header, row, "src_port");
    CellIsOf(header, row, "dst_port");
    CellIsOf(header, row, "username");
  }

  /** The parser fails on blank or unreadable payloads, without a data row, and on a row of another length. */
  lemma FailsExactly(raw: RawEvent, records: Option<seq<seq<string>>>, now: string)
    ensures ParseCsv(raw, records, now).Err? <==>
            All(raw.payload,
                IsSpace) || records.None? || |records.value| < 2 || |records.value[0]| != |records.value[1]|
  {
    TrimmedEmpty(raw.payload);
  }
}
