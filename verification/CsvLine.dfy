/** The lines of src/storage_csv.c: the order of the event columns, the fixed-size line buffer,
    and the header and rows that are built in it. */
module CsvLine {
  import opened Text
  import opened Payloads

  const CSV_LINE_BUFFER_SIZE := 1024

  // ----- The order of event names: strcmp

  predicate Less(a: string, b: string) {
    b != "" && (a == "" || a[0] < b[0] || (a[0] == b[0] && Less(a[1..], b[1..])))
  }

  /** The texts agree up to position k, where `a` ends or has the smaller character. */
  predicate SmallerAt(a: string, b: string, k: nat) {
    k <= |a| && k < |b| && (forall i :: 0 <= i < k ==> a[i] == b[i]) && (k == |a| || a[k] < b[k])
  }

  /** The order is that of the first difference. */
  lemma {:induction false} LessAtDifference(a: string, b: string)
    ensures Less(a, b) <==> exists k :: SmallerAt(a, b, k)
  {
    if Less(a, b) {
      if a == "" || a[0] < b[0] {
        assert SmallerAt(a, b, 0);
      } else {
        LessAtDifference(a[1..], b[1..]);
        var k: nat :| SmallerAt(a[1..], b[1..], k);
        assert forall i :: 1 <= i < k + 1 ==> a[i] == a[1..][i - 1] && b[i] == b[1..][i - 1];
        assert SmallerAt(a, b, k + 1);
      }
    }
    if k: nat :| SmallerAt(a, b, k) {
      if k > 0 {
        assert SmallerAt(a[1..], b[1..], k - 1);
        LessAtDifference(a[1..], b[1..]);
      }
    }
  }

  lemma {:induction false} LessTrans(a: string, b: string, c: string)
    requires Less(a, b) && Less(b, c)
    ensures Less(a, c)
  {
    if a != "" && a[0] == b[0] && b[0] == c[0] {
      LessTrans(a[1..], b[1..], c[1..]);
    }
  }

  lemma {:induction false} LessTotal(a: string, b: string)
    ensures Less(a, b) || a == b || Less(b, a)
  {
    if a != "" && b != "" && a[0] == b[0] {
      LessTotal(a[1..], b[1..]);
      assert a == [a[0]] + a[1..] && b == [b[0]] + b[1..];
    }
  }

  lemma {:induction false} LessIrreflexive(a: string)
    ensures !Less(a, a)
  {
    if a != "" {
      LessIrreflexive(a[1..]);
    }
  }

  ghost predicate Sorted(names: seq<CString>) {
    forall i, j :: 0 <= i < j < |names| ==> Less(names[i], names[j])
  }

  ghost predicate IsOrder(names: seq<CString>, keys: set<CString>) {
    Sorted(names) && forall x :: x in names <==> x in keys
  }

  /** However the hash table enumerates its keys, there is only one sorted list of them. */
  lemma {:induction false} OrderUnique(a: seq<CString>, b: seq<CString>, keys: set<CString>)
    requires IsOrder(a, keys) && IsOrder(b, keys)
    ensures a == b
  {
    BothEmpty(a, b, keys);
    if a != [] {
      FirstIsLeast(a, b, keys);
      FirstIsLeast(b, a, keys);
      LessTotal(a[0], b[0]);
      RestIsOrder(a, keys);
      RestIsOrder(b, keys);
      OrderUnique(a[1..], b[1..], keys - {a[0]});
      assert a == [a[0]] + a[1..] && b == [b[0]] + b[1..];
    }
  }

  lemma BothEmpty(a: seq<CString>, b: seq<CString>, keys: set<CString>)
    requires IsOrder(a, keys) && IsOrder(b, keys)
    ensures a == [] <==> b == []
  {
    assert a == [] <==> keys == {} by { EmptyOrder(a, keys); }
    EmptyOrder(b, keys);
  }

  lemma EmptyOrder(a: seq<CString>, keys: set<CString>)
    requires IsOrder(a, keys)
    ensures a == [] <==> keys == {}
  {
    if a != [] {
      assert a[0] in keys;
    } else {
      assert forall x :: x !in keys;
    }
  }

  lemma FirstIsLeast(a: seq<CString>, b: seq<CString>, keys: set<CString>)
    requires IsOrder(a, keys) && IsOrder(b, keys) && a != [] && b != []
    ensures !Less(b[0], a[0])
  {
    assert b[0] in keys && b[0] in a;
    var i :| 0 <= i < |a| && a[i] == b[0];
    if Less(b[0], a[0]) {
      if i == 0 {
        LessIrreflexive(a[0]);
      } else {
        LessTrans(a[0], b[0], a[0]);
        LessIrreflexive(a[0]);
      }
    }
  }

  lemma RestIsOrder(a: seq<CString>, keys: set<CString>)
    requires IsOrder(a, keys) && a != []
    ensures IsOrder(a[1..], keys - {a[0]})
  {
    forall i | 1 <= i < |a|
      ensures a[i] != a[0]
    {
      LessIrreflexive(a[0]);
    }
    forall x
      ensures x in a[1..] <==> x in keys - {a[0]}
    {
      assert x in a <==> x in keys;
      assert a == [a[0]] + a[1..];
    }
  }

  /** Where a new name goes. */
  function Insert(names: seq<CString>, x: CString): (r: seq<CString>)
    ensures forall y :: y in r <==> y == x || y in names
  {
    if names == [] || Less(x, names[0]) then [x] + names
    else [names[0]] + Insert(names[1..], x)
  }

  lemma {:induction false} InsertSorted(names: seq<CString>, x: CString)
    requires Sorted(names) && x !in names
    ensures Sorted(Insert(names, x))
  {
    if names == [] {
    } else if Less(x, names[0]) {
      forall j | 1 <= j < |names|
        ensures Less(x, names[j])
      {
        LessTrans(x, names[0], names[j]);
      }
    } else {
      var rest := Insert(names[1..], x);
      InsertSorted(names[1..], x);
      LessTotal(x, names[0]);
      forall j | 0 <= j < |rest|
        ensures Less(names[0], rest[j])
      {
        assert rest[j] in rest;
      }
    }
  }

  /** zhashx_keys and zlistx_sort. */
  method SortedKeys(events: Events) returns (names: seq<CString>)
    ensures IsOrder(names, events.Keys)
  {
    names := [];
    var rest := events.Keys;
    while rest != {}
      invariant rest <= events.Keys && IsOrder(names, events.Keys - rest)
      decreases rest
    {
      var x :| x in rest;
      InsertSorted(names, x);
      names, rest := Insert(names, x), rest - {x};
    }
  }

  lemma {:induction false} OrderExists(keys: set<CString>)
    ensures exists r :: IsOrder(r, keys)
  {
    if keys == {} {
      assert IsOrder([], keys);
    } else {
      var x :| x in keys;
      OrderExists(keys - {x});
      var r :| IsOrder(r, keys - {x});
      InsertSorted(r, x);
      assert IsOrder(Insert(r, x), keys);
    }
  }

  /** The column order of a set of event names. */
  ghost function HeaderOrder(keys: set<CString>): (r: seq<CString>)
    ensures IsOrder(r, keys)
  {
    OrderExists(keys);
    var r :| IsOrder(r, keys);
    r
  }

  // ----- The line buffer

  /** How much of a text of length `pos` the buffer keeps. */
  function Kept(pos: nat): nat {
    if pos < CSV_LINE_BUFFER_SIZE then pos else CSV_LINE_BUFFER_SIZE - 1
  }

  /** `pos += snprintf(buffer + pos, SIZE - pos, ...)` on a buffer of fixed size; `whole` is what
      an unbounded buffer would hold. */
  class LineBuffer {
    const buffer: array<char>
    var pos: nat
    ghost var whole: string

    ghost predicate Valid()
      reads this, buffer
    {
      && buffer.Length == CSV_LINE_BUFFER_SIZE
      && pos == |whole| && '\0' !in whole
      && buffer[Kept(pos)] == '\0'
      && forall i :: 0 <= i < Kept(pos) ==> buffer[i] == whole[i]
    }

    constructor ()
      ensures Valid() && fresh(buffer) && whole == ""
    {
      buffer := new char[CSV_LINE_BUFFER_SIZE](_ => '\0');
      pos, whole := 0, "";
    }

    /** One formatted write. It must start inside the buffer. */
    method Printf(text: CString)
      requires Valid() && pos <= CSV_LINE_BUFFER_SIZE
      modifies this`pos, this`whole, buffer
      ensures Valid() && whole == old(whole) + text
    {
      var room := CSV_LINE_BUFFER_SIZE - pos;
      if room > 0 {
        var n := if |text| < room then |text| else room - 1;
        forall i | 0 <= i < n {
          buffer[pos + i] := text[i];
        }
        buffer[pos + n] := '\0';
      }
      whole := whole + text;
      pos := pos + |text|;
    }

    /** The C string in the buffer. */
    method Text() returns (text: string)
      requires Valid()
      ensures text == if pos < CSV_LINE_BUFFER_SIZE then whole else whole[..CSV_LINE_BUFFER_SIZE - 1]
    {
      ghost var kept := Kept(pos);
      assert buffer[..][..kept] == whole[..kept] && buffer[..][kept] == '\0';
      UntilNulIsPrefix(buffer[..], kept);
      text := UntilNul(buffer[..]);
      assert pos < CSV_LINE_BUFFER_SIZE ==> whole[..kept] == whole;
    }
  }

  // ----- Headers and rows

  const STATIC_HEADER: CString := "timestamp,sensor,target,socket,cpu"

  function StaticFields(): seq<CString> { ["timestamp", "sensor", "target", "socket", "cpu"] }

  function RowPrefixFields(sensor: CString, timestamp: nat, target: CString, socket: CString, cpu: CString): seq<CString> {
    [Decimals(timestamp), sensor, target, socket, cpu]
  }

  function Decimals(n: nat): CString { Print(n, Decimal) }

  function Values(order: seq<CString>, events: Events): seq<CString>
    requires HasAll(order, events)
  {
    seq(|order|, i requires 0 <= i < |order| => Decimals(events[order[i]]))
  }

  function HeaderLine(order: seq<CString>): string { Join(StaticFields() + order, ',') }

  function RowLine(prefix: seq<CString>, order: seq<CString>, events: Events): string
    requires prefix != [] && HasAll(order, events)
  {
    Join(prefix + Values(order, events), ',')
  }

  /** A field after the first one. */
  function Field(text: CString): CString { "," + text }

  /** What is written field by field is the join of all fields. */
  lemma JoinField(prefix: seq<CString>, fields: seq<CString>, n: nat)
    requires prefix != [] && n < |fields|
    ensures Join(prefix + fields[..n + 1], ',') == Join(prefix + fields[..n], ',') + ("," + fields[n])
  {
    assert prefix + fields[..n + 1] == (prefix + fields[..n]) + [fields[n]];
    JoinAppend(prefix + fields[..n], fields[n], ',');
  }

  lemma {:induction false} JoinGrows(prefix: seq<CString>, fields: seq<CString>, n: nat)
    requires prefix != [] && n <= |fields|
    ensures |Join(prefix + fields[..n], ',')| <= |Join(prefix + fields, ',')|
    decreases |fields| - n
  {
    if n < |fields| {
      JoinField(prefix, fields, n);
      JoinGrows(prefix, fields, n + 1);
    } else {
      assert fields[..n] == fields;
    }
  }

  /** The header of write_group_header, unless it does not fit. */
  method BuildHeader(order: seq<CString>) returns (line: Option<string>)
    ensures line == if |HeaderLine(order)| < CSV_LINE_BUFFER_SIZE then Some(HeaderLine(order)) else None
  {
    StaticHeader();
    var buffer := new LineBuffer();
    buffer.Printf(STATIC_HEADER);
    assert StaticFields() + order[..0] == StaticFields();
    var i := 0;
    while i < |order|
      invariant i <= |order| && buffer.Valid() && fresh(buffer) && fresh(buffer.buffer)
      invariant buffer.whole == Join(StaticFields() + order[..i], ',') && buffer.pos < CSV_LINE_BUFFER_SIZE
    {
      JoinField(StaticFields(), order, i);
      JoinGrows(StaticFields(), order, i + 1);
      buffer.Printf(Field(order[i]));
      if buffer.pos >= CSV_LINE_BUFFER_SIZE {
        return None;
      }
      i := i + 1;
    }
    assert order[..i] == order;
    var text := buffer.Text();
    return Some(text);
  }

  /** The row of write_events_value, unless a column has no value or the row does not fit. The
      fields before the events must fit the buffer. */
  method BuildRow(prefix: seq<CString>, order: seq<CString>, events: Events) returns (line: Option<string>)
    requires prefix != [] && |Join(prefix, ',')| < CSV_LINE_BUFFER_SIZE
    ensures line == if HasAll(order, events) && |RowLine(prefix, order, events)| < CSV_LINE_BUFFER_SIZE
                    then Some(RowLine(prefix, order, events)) else None
  {
    var buffer := new LineBuffer();
    JoinNulFree(prefix);
    buffer.Printf(Join(prefix, ','));
    assert prefix + Values(order[..0], events) == prefix;
    var i := 0;
    while i < |order|
      invariant i <= |order| && HasAll(order[..i], events)
      invariant buffer.Valid() && fresh(buffer) && fresh(buffer.buffer)
      invariant buffer.whole == RowLine(prefix, order[..i], events) && buffer.pos < CSV_LINE_BUFFER_SIZE
    {
      if order[i] !in events {
        return None;
      }
      RowField(prefix, order, events, i);
      buffer.Printf(Field(Decimals(events[order[i]])));
      if buffer.pos >= CSV_LINE_BUFFER_SIZE {
        RowGrows(prefix, order, events, i + 1);
        return None;
      }
      i := i + 1;
    }
    assert order[..i] == order;
    var text := buffer.Text();
    return Some(text);
  }

  predicate HasAll(order: seq<CString>, events: Events) {
    forall i :: 0 <= i < |order| ==> order[i] in events
  }

  lemma JoinNulFree(fields: seq<CString>)
    requires fields != []
    ensures '\0' !in Join(fields, ',')
  {
    JoinFree(fields, ',', '\0');
  }

  lemma RowField(prefix: seq<CString>, order: seq<CString>, events: Events, n: nat)
    requires prefix != [] && n < |order| && HasAll(order[..n], events) && order[n] in events
    ensures HasAll(order[..n + 1], events)
    ensures RowLine(prefix, order[..n + 1], events) ==
      RowLine(prefix, order[..n], events) + ("," + Decimals(events[order[n]]))
  {
    assert forall i :: 0 <= i < n ==> order[..n + 1][i] == order[..n][i];
    var values := Values(order[..n + 1], events);
    assert values[..n] == Values(order[..n], events);
    assert values[..n + 1] == values;
    JoinField(prefix, values, n);
  }

  lemma RowGrows(prefix: seq<CString>, order: seq<CString>, events: Events, n: nat)
    requires prefix != [] && n <= |order| && HasAll(order[..n], events)
    ensures HasAll(order, events) ==>
      |RowLine(prefix, order[..n], events)| <= |RowLine(prefix, order, events)|
  {
    if HasAll(order, events) {
      assert Values(order, events)[..n] == Values(order[..n], events);
      JoinGrows(prefix, Values(order, events), n);
    }
  }

  lemma StaticHeader()
    ensures STATIC_HEADER == Join(StaticFields(), ',')
  {
    var f := StaticFields();
    assert f[1..] == ["sensor", "target", "socket", "cpu"];
    assert f[1..][1..] == ["target", "socket", "cpu"];
    assert f[1..][1..][1..] == ["socket", "cpu"];
    assert f[1..][1..][1..][1..] == ["cpu"];
    assert Join(f[1..][1..][1..], ',') == "socket" + "," + "cpu";
    assert Join(f[1..][1..], ',') == "target" + "," + "socket,cpu";
    assert Join(f[1..], ',') == "sensor" + "," + "target,socket,cpu";
    assert Join(f, ',') == "timestamp" + "," + "sensor,target,socket,cpu";
  }

  /** A row splits back into its fields, and column i of the events is under header column i. */
  lemma RowReads(prefix: seq<CString>, order: seq<CString>, events: Events)
    requires |prefix| == 5 && Free(prefix, ',') && Free(order, ',')
    requires HasAll(order, events)
    ensures var header, row := Split(HeaderLine(order), ','), Split(RowLine(prefix, order, events), ',');
      && |row| == |header| == 5 + |order|
      && row[..5] == prefix
      && forall i :: 0 <= i < |order| ==>
           header[5 + i] == order[i] && Read(row[5 + i], Decimal) == Some(events[order[i]])
  {
    var fields, names := prefix + Values(order, events), StaticFields() + order;
    RowFieldsFree(prefix, order, events);
    HeaderFieldsFree(order);
    SplitJoin(fields, ',');
    SplitJoin(names, ',');
    forall i | 0 <= i < |order|
      ensures names[5 + i] == order[i] && Read(fields[5 + i], Decimal) == Some(events[order[i]])
    {
      ReadPrint(events[order[i]], Decimal);
    }
  }

  lemma RowFieldsFree(prefix: seq<CString>, order: seq<CString>, events: Events)
    requires Free(prefix, ',') && HasAll(order, events)
    ensures Free(prefix + Values(order, events), ',')
  {
    var values := Values(order, events);
    forall i | 0 <= i < |values|
      ensures ',' !in values[i]
    {
      assert values[i] == Decimals(events[order[i]]);
    }
  }

  lemma HeaderFieldsFree(order: seq<CString>)
    requires Free(order, ',')
    ensures Free(StaticFields() + order, ',')
  {}
}
