/** Every column of every row of the CSV store, from the payload to the file. */
module CsvColumns {
  import opened Text
  import opened Payloads
  import opened CsvLine
  import opened CsvStore
  import opened CsvFiles
  import CsvRows

  /** The row of a CPU under its header: the time of the report, the sensor, the target, the package
      and the CPU under their names, and under every other name the CPU's value of that event. */
  ghost predicate RowShows(header: string, row: string, sensor: CString, payload: Payload, pkg: Pkg, cpu: Cpu) {
    var names, values := Split(header, ','), Split(row, ',');
    && 5 <= |names| == |values|
    && names[..5] == ["timestamp", "sensor", "target", "socket", "cpu"]
    && Read(values[0], Decimal) == Some(payload.timestamp)
    && values[1] == sensor && values[2] == payload.target && values[3] == pkg.id && values[4] == cpu.id
    && forall j :: 5 <= j < |names| ==> ShowsEvent(names[j], values[j], cpu.events)
  }

  ghost predicate ShowsEvent(name: string, value: string, events: Events) {
    && '\0' !in name
    && var key: CString := name;
    && key in events && Read(value, Decimal) == Some(events[key])
  }

  ghost predicate NoCommas(sensor: CString, target: CString, pkg: CString, cpu: Cpu) {
    && ',' !in sensor && ',' !in target && ',' !in pkg && ',' !in cpu.id
    && forall name :: name in cpu.events ==> ',' !in name
  }

  /** Where the row of CPU c of package p is, among the rows of its group. */
  function RowIndex(g: Group, p: nat, c: nat): nat
    requires p < |g.pkgs|
  {
    CpuCount(g.pkgs, p) + c
  }

  /** The file of the group ends in one row per CPU of the group, of which the one of this CPU shows
      what the payload says. */
  ghost predicate InFile(s: Store, sensor: CString, payload: Payload, g: Group, p: nat, c: nat)
    requires p < |g.pkgs| && c < |g.pkgs[p].cpus|
  {
    && g.name in s.files
    && var lines, n := s.files[g.name], CpuCount(g.pkgs, |g.pkgs|);
    && RowIndex(g, p, c) < n < |lines|
    && RowShows(lines[0], lines[|lines| - n + RowIndex(g, p, c)], sensor, payload, g.pkgs[p], g.pkgs[p].cpus[c])
  }

  lemma {:induction false} CpuOpAt(x: Context, group: CString, pkg: Pkg, n: nat, c: nat)
    requires c < n <= |pkg.cpus|
    ensures CpuOps(x, group, pkg, n)[c] == WriteOf(x, group, pkg.id, pkg.cpus[c])
  {
    if c < n - 1 {
      CpuOpAt(x, group, pkg, n - 1, c);
    }
  }

  lemma {:induction false} PkgOpAt(x: Context, group: CString, pkgs: seq<Pkg>, n: nat, p: nat, c: nat)
    requires p < n <= |pkgs| && c < |pkgs[p].cpus|
    ensures CpuCount(pkgs, p) + c < CpuCount(pkgs, n)
    ensures PkgOps(x, group, pkgs, n)[CpuCount(pkgs, p) + c] == WriteOf(x, group, pkgs[p].id, pkgs[p].cpus[c])
  {
    if p < n - 1 {
      PkgOpAt(x, group, pkgs, n - 1, p, c);
    } else {
      CpuOpAt(x, group, pkgs[p], |pkgs[p].cpus|, c);
    }
  }

  lemma PrefixShows(sensor: CString, payload: Payload, pkg: Pkg, cpu: Cpu, values: seq<string>)
    requires |values| >= 5
    requires var x := ContextOf(sensor, payload);
      values[..5] == RowPrefixFields(x.sensor, x.timestamp, x.target, pkg.id, cpu.id)
    ensures Read(values[0], Decimal) == Some(payload.timestamp)
    ensures values[1] == sensor && values[2] == payload.target && values[3] == pkg.id && values[4] == cpu.id
  {
    ReadPrint(payload.timestamp, Decimal);
    assert forall i :: 0 <= i < 5 ==> values[i] == values[..5][i];
  }

  lemma RowOfShows(sensor: CString, payload: Payload, g: CString, pkg: Pkg, cpu: Cpu, order: seq<CString>)
    requires NoCommas(sensor, payload.target, pkg.id, cpu) && HasAll(order, cpu.events)
    ensures var op := WriteOf(ContextOf(sensor, payload), g, pkg.id, cpu);
      |op.prefix| == 5 && RowShows(HeaderLine(order), RowLine(op.prefix, order, cpu.events), sensor, payload, pkg, cpu)
  {
    var op := WriteOf(ContextOf(sensor, payload), g, pkg.id, cpu);
    PrintDigits(payload.timestamp, Decimal);
    assert forall i :: 0 <= i < |order| ==> ',' !in order[i];
    RowReads(op.prefix, order, cpu.events);
    HeaderFieldsFree(order);
    SplitJoin(StaticFields() + order, ',');
    PrefixShows(sensor, payload, pkg, cpu, Split(RowLine(op.prefix, order, cpu.events), ','));
  }

  lemma AddedRowShows(s: Store, s': Store, sensor: CString, payload: Payload, g: Group, p: nat, c: nat)
    requires Valid(s') && CsvRows.Added(s, s', ContextOf(sensor, payload), g)
    requires p < |g.pkgs| && c < |g.pkgs[p].cpus|
    requires NoCommas(sensor, payload.target, g.pkgs[p].id, g.pkgs[p].cpus[c])
    ensures InFile(s', sensor, payload, g, p, c)
  {
    var x, i := ContextOf(sensor, payload), RowIndex(g, p, c);
    PkgOpAt(x, g.name, g.pkgs, |g.pkgs|, p, c);
    var op := Writes(x, g)[i];
    CsvRows.LineInFile(s, s', x, g, i);
    assert CsvRows.IsRowOp(op, s'.orders[g.name]) && FileOk(s'.files[g.name], s'.orders[g.name]);
    RowOfShows(sensor, payload, g.name, g.pkgs[p], g.pkgs[p].cpus[c], s'.orders[g.name]);
  }

  lemma GroupAdded(s: Store, s': Store, x: Context, groups: seq<Group>, env: Environment, k: nat)
    requires Valid(s) && AllHaveCpus(groups) && CsvRows.DistinctGroups(groups) && k < |groups|
    requires StoreReport(s, x, groups, env).ok && s' == StoreReport(s, x, groups, env).store
    ensures Valid(s') && CsvRows.Added(s, s', x, groups[k])
  {
    CpusDoNotLeak(StartKeys(s), groups, |groups|);
    ReportKeepsFiles(s, x, groups, env);
    CsvRows.ReportAddsRows(s, x, groups, |groups|, env);
  }

  /** After a successful report, the file of each of its groups ends in one row per CPU of the
      group, in order, and every column of the row of each CPU shows what the payload says under
      the name of that column, when no name holds a comma. */
  lemma StoredRows(s: Store, sensor: CString, payload: Payload, env: Environment, k: nat, p: nat, c: nat)
    requires Valid(s) && AllHaveCpus(payload.groups) && CsvRows.DistinctGroups(payload.groups)
    requires StoreReport(s, ContextOf(sensor, payload), payload.groups, env).ok
    requires k < |payload.groups| && p < |payload.groups[k].pkgs| && c < |payload.groups[k].pkgs[p].cpus|
    requires NoCommas(sensor, payload.target, payload.groups[k].pkgs[p].id, payload.groups[k].pkgs[p].cpus[c])
    ensures InFile(StoreReport(s, ContextOf(sensor, payload), payload.groups, env).store, sensor, payload, payload.groups[k], p, c)
  {
    var s' := StoreReport(s, ContextOf(sensor, payload), payload.groups, env).store;
    GroupAdded(s, s', ContextOf(sensor, payload), payload.groups, env, k);
    AddedRowShows(s, s', sensor, payload, payload.groups[k], p, c);
  }
}
