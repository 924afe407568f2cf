/** The CSV store of src/storage_csv.c: one file per events group, whose first line is the
    header and whose every other line is a row in the order of that header. */
module CsvStore {
  import opened Text
  import opened Payloads
  import opened CsvLine

  // ----- The store as a machine

  /** The lines written to each open file (groups_fd) and the column order of each group whose
      header was written (groups_events). `clock` numbers the opens and writes, whose outcomes
      the environment decides. */
  datatype Store = Store(files: map<CString, seq<string>>, orders: map<CString, seq<CString>>, clock: nat)

  /** A call of csv_store_report under way: whether it has failed, and its write_header flag. */
  datatype Call = Call(ok: bool, writeHeader: bool, store: Store)

  type Environment = nat -> bool

  /** What a call does, in order: look a group up, and write a CPU of it. */
  datatype Op = Visit(group: CString) | Write(group: CString, prefix: seq<CString>, events: Events)

  ghost function VisitGroup(c: Call, group: CString, env: Environment): Call {
    if group in c.store.files then c
    else if env(c.store.clock) then
      Call(true, true, c.store.(files := c.store.files[group := []], clock := c.store.clock + 1))
    else c.(ok := false, store := c.store.(clock := c.store.clock + 1))
  }

  /** One line to the file of a group, if it fits 1024 characters with its NUL and the write
      succeeds. */
  ghost function PutLine(s: Store, group: CString, line: string, env: Environment): (r: (bool, Store))
    requires group in s.files
    ensures group in r.1.files
  {
    if |line| >= 1024 then (false, s)
    else if !env(s.clock) then (false, s.(clock := s.clock + 1))
    else (true, s.(files := s.files[group := s.files[group] + [line]], clock := s.clock + 1))
  }

  /** An insertion into a table leaves an entry that is already there. */
  ghost function PutHeader(s: Store, group: CString, events: Events, env: Environment): (r: (bool, Store))
    requires group in s.files
    ensures group in r.1.files
  {
    var order := HeaderOrder(events.Keys);
    var (ok, s') := PutLine(s, group, HeaderLine(order), env);
    if ok && group !in s.orders then (ok, s'.(orders := s'.orders[group := order])) else (ok, s')
  }

  ghost function PutRow(s: Store, group: CString, prefix: seq<CString>, events: Events, env: Environment): (r: (bool, Store))
    requires group in s.files
    ensures group in r.1.files
  {
    if prefix == [] || group !in s.orders || !HasAll(s.orders[group], events) then (false, s)
    else PutLine(s, group, RowLine(prefix, s.orders[group], events), env)
  }

  ghost function WriteCpu(c: Call, group: CString, prefix: seq<CString>, events: Events, env: Environment): Call
    requires group in c.store.files
  {
    var (headed, s) := if c.writeHeader then PutHeader(c.store, group, events, env) else (true, c.store);
    if !headed then Call(false, c.writeHeader, s)
    else
      var (ok, s') := PutRow(s, group, prefix, events, env);
      Call(ok, false, s')
  }

  ghost function Step(c: Call, op: Op, env: Environment): Call {
    if !c.ok then c
    else if op.Visit? then VisitGroup(c, op.group, env)
    else if op.group in c.store.files then WriteCpu(c, op.group, op.prefix, op.events, env)
    else c.(ok := false)
  }

  ghost function Exec(c: Call, ops: seq<Op>, env: Environment): Call {
    if ops == [] then c else Step(Exec(c, ops[..|ops| - 1], env), ops[|ops| - 1], env)
  }

  lemma {:induction false} ExecConcat(c: Call, a: seq<Op>, b: seq<Op>, env: Environment)
    ensures Exec(c, a + b, env) == Exec(Exec(c, a, env), b, env)
  {
    if b == [] {
      assert a + b == a;
    } else {
      assert (a + b)[..|a + b| - 1] == a + b[..|b| - 1];
      ExecConcat(c, a, b[..|b| - 1], env);
    }
  }

  lemma {:induction false} ExecFailed(c: Call, ops: seq<Op>, env: Environment)
    requires !c.ok
    ensures Exec(c, ops, env) == c
  {
    if ops != [] {
      ExecFailed(c, ops[..|ops| - 1], env);
    }
  }

  // ----- A report as a list of operations

  datatype Context = Context(sensor: CString, timestamp: U64, target: CString)

  function WriteOf(x: Context, group: CString, pkg: CString, cpu: Cpu): Op {
    Write(group, RowPrefixFields(x.sensor, x.timestamp, x.target, pkg, cpu.id), cpu.events)
  }

  function CpuOps(x: Context, group: CString, pkg: Pkg, n: nat): (ops: seq<Op>)
    requires n <= |pkg.cpus|
    ensures |ops| == n
  {
    if n == 0 then [] else CpuOps(x, group, pkg, n - 1) + [WriteOf(x, group, pkg.id, pkg.cpus[n - 1])]
  }

  function PkgOps(x: Context, group: CString, pkgs: seq<Pkg>, n: nat): (ops: seq<Op>)
    requires n <= |pkgs|
    ensures |ops| == CpuCount(pkgs, n)
  {
    if n == 0 then []
    else PkgOps(x, group, pkgs, n - 1) + CpuOps(x, group, pkgs[n - 1], |pkgs[n - 1].cpus|)
  }

  /** The writes of a group: one for each of its CPUs. */
  function Writes(x: Context, g: Group): (ops: seq<Op>)
    ensures |ops| == CpuCount(g.pkgs, |g.pkgs|)
  {
    PkgOps(x, g.name, g.pkgs, |g.pkgs|)
  }

  function GroupOps(x: Context, groups: seq<Group>, n: nat): seq<Op>
    requires n <= |groups|
  {
    if n == 0 then []
    else GroupOps(x, groups, n - 1) + ([Visit(groups[n - 1].name)] + Writes(x, groups[n - 1]))
  }

  /** csv_store_report on a store. */
  ghost function StoreReport(s: Store, x: Context, groups: seq<Group>, env: Environment): Call {
    Exec(Call(true, false, s), GroupOps(x, groups, |groups|), env)
  }

  // ----- The store in place

  class Csv {
    const sensor: CString
    const env: Environment
    var groupsFd: map<CString, seq<string>>
    var groupsEvents: map<CString, seq<CString>>
    var clock: nat

    constructor (sensor: CString, env: Environment)
      ensures Abs() == Store(map[], map[], 0) && this.sensor == sensor && this.env == env
    {
      this.sensor, this.env := sensor, env;
      groupsFd, groupsEvents, clock := map[], map[], 0;
    }

    ghost function Abs(): Store
      reads this
    {
      Store(groupsFd, groupsEvents, clock)
    }

    /** The environment's answer to the next open or write. */
    method Ask() returns (granted: bool)
      modifies this`clock
      ensures clock == old(clock) + 1 && granted == env(old(clock))
    {
      granted := env(clock);
      clock := clock + 1;
    }

    /** fprintf of the buffer and a newline. */
    method WriteLine(group: CString, line: string) returns (ok: bool)
      requires group in groupsFd && |line| < CSV_LINE_BUFFER_SIZE
      modifies this`groupsFd, this`clock
      ensures (ok, Abs()) == PutLine(old(Abs()), group, line, env)
    {
      ok := Ask();
      if ok {
        groupsFd := groupsFd[group := groupsFd[group] + [line]];
      }
    }

    method OpenGroupOutfile(group: CString) returns (ret: int)
      requires group !in groupsFd
      modifies this`groupsFd, this`clock
      ensures ret == 0 || ret == -1
      ensures ret == 0 ==> env(old(clock)) && Abs() == old(Abs()).(files := old(groupsFd)[group := []], clock := old(clock) + 1)
      ensures ret == -1 ==> !env(old(clock)) && Abs() == old(Abs()).(clock := old(clock) + 1)
    {
      var granted := Ask();
      if !granted {
        return -1;
      }
      groupsFd := groupsFd[group := []];
      return 0;
    }

    method WriteGroupHeader(group: CString, events: Events) returns (ret: int)
      requires group in groupsFd
      modifies this
      ensures ret == 0 || ret == -1
      ensures (ret == 0, Abs()) == PutHeader(old(Abs()), group, events, env)
    {
      var eventsName := SortedKeys(events);
      OrderUnique(eventsName, HeaderOrder(events.Keys), events.Keys);
      var line := BuildHeader(eventsName);
      if line.None? {
        return -1;
      }
      var ok := WriteLine(group, line.value);
      if !ok {
        return -1;
      }
      if group !in groupsEvents {
        groupsEvents := groupsEvents[group := eventsName];
      }
      return 0;
    }

    /** write_events_value: `prefix` are the fields before the events. */
    method WriteEventsValue(group: CString, prefix: seq<CString>, events: Events) returns (ret: int)
      requires group in groupsFd
      requires prefix != [] && |Join(prefix, ',')| < CSV_LINE_BUFFER_SIZE
      modifies this`groupsFd, this`clock
      ensures ret == 0 || ret == -1
      ensures (ret == 0, Abs()) == PutRow(old(Abs()), group, prefix, events, env)
    {
      if group !in groupsEvents {
        return -1;
      }
      var line := BuildRow(prefix, groupsEvents[group], events);
      if line.None? {
        return -1;
      }
      var ok := WriteLine(group, line.value);
      return if ok then 0 else -1;
    }

    /** One CPU: the header first, when the flag is set. */
    method StoreCpu(x: Context, group: CString, pkg: CString, cpu: Cpu, wh: bool) returns (ok: bool, writeHeader: bool)
      requires group in groupsFd && PrefixFits(x, pkg, cpu)
      modifies this
      ensures Call(ok, writeHeader, Abs()) == Step(Call(true, wh, old(Abs())), WriteOf(x, group, pkg, cpu), env)
      ensures group in groupsFd
    {
      writeHeader := wh;
      if writeHeader {
        var headed := WriteGroupHeader(group, cpu.events);
        if headed != 0 {
          return false, writeHeader;
        }
        writeHeader := false;
      }
      var prefix := RowPrefixFields(x.sensor, x.timestamp, x.target, pkg, cpu.id);
      var written := WriteEventsValue(group, prefix, cpu.events);
      ok := written == 0;
    }

    /** The inner loop: the CPUs of one package. */
    method StorePkg(x: Context, group: CString, pkg: Pkg, wh: bool) returns (ok: bool, writeHeader: bool)
      requires group in groupsFd && PkgFits(x, pkg)
      modifies this
      ensures Call(ok, writeHeader, Abs()) ==
        Exec(Call(true, wh, old(Abs())), CpuOps(x, group, pkg, |pkg.cpus|), env)
      ensures group in groupsFd
    {
      ghost var start := Call(true, wh, old(Abs()));
      ok, writeHeader := true, wh;
      var i := 0;
      while i < |pkg.cpus|
        invariant i <= |pkg.cpus| && group in groupsFd && ok
        invariant Call(ok, writeHeader, Abs()) == Exec(start, CpuOps(x, group, pkg, i), env)
      {
        ok, writeHeader := StoreNextCpu(x, group, pkg, i, writeHeader, start);
        if !ok {
          return;
        }
        i := i + 1;
      }
    }

    method StoreNextCpu(x: Context, group: CString, pkg: Pkg, i: nat, wh: bool, ghost start: Call)
      returns (ok: bool, writeHeader: bool)
      requires group in groupsFd && PkgFits(x, pkg) && i < |pkg.cpus|
      requires Call(true, wh, Abs()) == Exec(start, CpuOps(x, group, pkg, i), env)
      modifies this
      ensures Call(ok, writeHeader, Abs()) == Exec(start, CpuOps(x, group, pkg, if ok then i + 1 else |pkg.cpus|), env)
      ensures group in groupsFd
    {
      ok, writeHeader := StoreCpu(x, group, pkg.id, pkg.cpus[i], wh);
      CpuNext(start, x, group, pkg, i, env);
      if !ok {
        CpuStop(start, x, group, pkg, i + 1, env);
      }
    }

    /** The first `j` packages of the group have been written, in a call that began as `start`. */
    ghost predicate PkgsWritten(start: Call, x: Context, g: Group, j: nat, ok: bool, wh: bool)
      reads this
    {
      && j <= |g.pkgs| && g.name in groupsFd
      && Call(ok, wh, Abs()) == Exec(start, PkgOps(x, g.name, g.pkgs, j), env)
    }

    lemma NonePkgWritten(x: Context, g: Group, wh: bool)
      requires g.name in groupsFd
      ensures PkgsWritten(Call(true, wh, Abs()), x, g, 0, true, wh)
    {}

    lemma AllPkgsWritten(start: Call, x: Context, g: Group, ok: bool, wh: bool)
      requires PkgsWritten(start, x, g, |g.pkgs|, ok, wh)
      ensures Call(ok, wh, Abs()) == Exec(start, Writes(x, g), env)
    {}

    /** The middle loop: the packages of one group. */
    method StorePkgs(x: Context, g: Group, wh: bool) returns (ok: bool, writeHeader: bool)
      requires g.name in groupsFd && GroupFits(x, g)
      modifies this
      ensures Call(ok, writeHeader, Abs()) == Exec(Call(true, wh, old(Abs())), Writes(x, g), env)
    {
      ghost var start := Call(true, wh, Abs());
      NonePkgWritten(x, g, wh);
      ok, writeHeader := true, wh;
      var j := 0;
      while j < |g.pkgs|
        invariant j <= |g.pkgs| && ok && PkgsWritten(start, x, g, j, ok, writeHeader)
      {
        ok, writeHeader := StoreNextPkg(x, g, j, writeHeader, start);
        if !ok {
          AllPkgsWritten(start, x, g, ok, writeHeader);
          return;
        }
        j := j + 1;
      }
      AllPkgsWritten(start, x, g, ok, writeHeader);
    }

    method StoreNextPkg(x: Context, g: Group, j: nat, wh: bool, ghost start: Call) returns (ok: bool, writeHeader: bool)
      requires GroupFits(x, g) && j < |g.pkgs| && PkgsWritten(start, x, g, j, true, wh)
      modifies this
      ensures PkgsWritten(start, x, g, if ok then j + 1 else |g.pkgs|, ok, writeHeader)
    {
      ok, writeHeader := StorePkg(x, g.name, g.pkgs[j], wh);
      PkgStored(start, Call(ok, writeHeader, Abs()), x, g.name, g.pkgs, j, env);
    }

    /** One group: its file is opened the first time, which sets the flag. */
    method StoreGroup(x: Context, g: Group, wh: bool) returns (ok: bool, writeHeader: bool)
      requires GroupFits(x, g)
      modifies this
      ensures Call(ok, writeHeader, Abs()) ==
        Exec(Call(true, wh, old(Abs())), [Visit(g.name)] + Writes(x, g), env)
    {
      ghost var start := Call(true, wh, old(Abs()));
      ExecConcat(start, [Visit(g.name)], Writes(x, g), env);
      ExecOne(start, Visit(g.name), env);
      writeHeader := wh;
      if g.name !in groupsFd {
        var opening := OpenGroupOutfile(g.name);
        if opening != 0 {
          ExecFailed(Call(false, wh, Abs()), Writes(x, g), env);
          return false, writeHeader;
        }
        writeHeader := true;
      }
      ok, writeHeader := StorePkgs(x, g, writeHeader);
    }

    /** csv_store_report. The fields before the events must fit the line buffer; the source
        does not check that. */
    method CsvStoreReport(payload: Payload) returns (ret: int)
      requires forall k :: 0 <= k < |payload.groups| ==> GroupFits(ContextOf(sensor, payload), payload.groups[k])
      modifies this
      ensures ret == 0 || ret == -1
      ensures var c := StoreReport(old(Abs()), ContextOf(sensor, payload), payload.groups, env);
        c.ok == (ret == 0) && c.store == Abs()
    {
      var x, groups := ContextOf(sensor, payload), payload.groups;
      ghost var start := Call(true, false, old(Abs()));
      var ok, writeHeader := true, false;
      var k := 0;
      while k < |groups|
        invariant k <= |groups| && ok
        invariant Call(ok, writeHeader, Abs()) == Exec(start, GroupOps(x, groups, k), env)
      {
        ok, writeHeader := StoreGroup(x, groups[k], writeHeader);
        ExecConcat(start, GroupOps(x, groups, k), [Visit(groups[k].name)] + Writes(x, groups[k]), env);
        k := k + 1;
        if !ok {
          GroupOpsPrefix(x, groups, k, |groups|);
          StopEarly(start, GroupOps(x, groups, k), GroupOps(x, groups, |groups|), env);
          return -1;
        }
      }
      return 0;
    }
  }

  function ContextOf(sensor: CString, payload: Payload): Context {
    Context(sensor, payload.timestamp, payload.target)
  }

  predicate PrefixFits(x: Context, pkg: CString, cpu: Cpu) {
    |Join(RowPrefixFields(x.sensor, x.timestamp, x.target, pkg, cpu.id), ',')| < CSV_LINE_BUFFER_SIZE
  }

  predicate PkgFits(x: Context, pkg: Pkg) {
    forall i {:trigger PrefixFits(x, pkg.id, pkg.cpus[i])} :: 0 <= i < |pkg.cpus| ==> PrefixFits(x, pkg.id, pkg.cpus[i])
  }

  predicate GroupFits(x: Context, g: Group) {
    forall j {:trigger PkgFits(x, g.pkgs[j])} :: 0 <= j < |g.pkgs| ==> PkgFits(x, g.pkgs[j])
  }

  // ----- Stopping early is failing to the end

  lemma ExecNext(c: Call, ops: seq<Op>, op: Op, env: Environment)
    ensures Exec(c, ops + [op], env) == Step(Exec(c, ops, env), op, env)
  {
    assert (ops + [op])[..|ops|] == ops;
  }

  lemma ExecOne(c: Call, op: Op, env: Environment)
    ensures Exec(c, [op], env) == Step(c, op, env)
  {
    assert [op][..0] == [];
  }

  lemma StopEarly(c: Call, a: seq<Op>, b: seq<Op>, env: Environment)
    requires a <= b && !Exec(c, a, env).ok
    ensures Exec(c, b, env) == Exec(c, a, env)
  {
    assert b == a + b[|a|..];
    ExecConcat(c, a, b[|a|..], env);
    ExecFailed(Exec(c, a, env), b[|a|..], env);
  }

  lemma {:induction false} CpuOpsPrefix(x: Context, group: CString, pkg: Pkg, i: nat, n: nat)
    requires i <= n <= |pkg.cpus|
    ensures CpuOps(x, group, pkg, i) <= CpuOps(x, group, pkg, n)
  {
    if i < n {
      CpuOpsPrefix(x, group, pkg, i, n - 1);
    }
  }

  lemma {:induction false} PkgOpsPrefix(x: Context, group: CString, pkgs: seq<Pkg>, i: nat, n: nat)
    requires i <= n <= |pkgs|
    ensures PkgOps(x, group, pkgs, i) <= PkgOps(x, group, pkgs, n)
  {
    if i < n {
      PkgOpsPrefix(x, group, pkgs, i, n - 1);
    }
  }

  lemma CpuNext(c: Call, x: Context, group: CString, pkg: Pkg, i: nat, env: Environment)
    requires i < |pkg.cpus|
    ensures Exec(c, CpuOps(x, group, pkg, i + 1), env) ==
      Step(Exec(c, CpuOps(x, group, pkg, i), env), WriteOf(x, group, pkg.id, pkg.cpus[i]), env)
  {
    ExecNext(c, CpuOps(x, group, pkg, i), WriteOf(x, group, pkg.id, pkg.cpus[i]), env);
  }

  lemma CpuStop(c: Call, x: Context, group: CString, pkg: Pkg, i: nat, env: Environment)
    requires i <= |pkg.cpus| && !Exec(c, CpuOps(x, group, pkg, i), env).ok
    ensures Exec(c, CpuOps(x, group, pkg, |pkg.cpus|), env) == Exec(c, CpuOps(x, group, pkg, i), env)
  {
    CpuOpsPrefix(x, group, pkg, i, |pkg.cpus|);
    StopEarly(c, CpuOps(x, group, pkg, i), CpuOps(x, group, pkg, |pkg.cpus|), env);
  }

  lemma PkgNext(c: Call, x: Context, group: CString, pkgs: seq<Pkg>, j: nat, env: Environment)
    requires j < |pkgs|
    ensures Exec(c, PkgOps(x, group, pkgs, j + 1), env) ==
      Exec(Exec(c, PkgOps(x, group, pkgs, j), env), CpuOps(x, group, pkgs[j], |pkgs[j].cpus|), env)
  {
    ExecConcat(c, PkgOps(x, group, pkgs, j), CpuOps(x, group, pkgs[j], |pkgs[j].cpus|), env);
  }

  /** After a package: the packages up to it have been written, or the whole group has failed. */
  lemma PkgStored(c: Call, r: Call, x: Context, group: CString, pkgs: seq<Pkg>, j: nat, env: Environment)
    requires j < |pkgs|
    requires r == Exec(Exec(c, PkgOps(x, group, pkgs, j), env), CpuOps(x, group, pkgs[j], |pkgs[j].cpus|), env)
    ensures r == Exec(c, PkgOps(x, group, pkgs, if r.ok then j + 1 else |pkgs|), env)
  {
    PkgNext(c, x, group, pkgs, j, env);
    PkgOrStop(c, r, x, group, pkgs, j + 1, env);
  }

  lemma PkgOrStop(c: Call, r: Call, x: Context, group: CString, pkgs: seq<Pkg>, j: nat, env: Environment)
    requires j <= |pkgs| && r == Exec(c, PkgOps(x, group, pkgs, j), env)
    ensures r == Exec(c, PkgOps(x, group, pkgs, if r.ok then j else |pkgs|), env)
  {
    if !r.ok {
      PkgStop(c, x, group, pkgs, j, env);
    }
  }

  lemma PkgStop(c: Call, x: Context, group: CString, pkgs: seq<Pkg>, j: nat, env: Environment)
    requires j <= |pkgs| && !Exec(c, PkgOps(x, group, pkgs, j), env).ok
    ensures Exec(c, PkgOps(x, group, pkgs, |pkgs|), env) == Exec(c, PkgOps(x, group, pkgs, j), env)
  {
    PkgOpsPrefix(x, group, pkgs, j, |pkgs|);
    StopEarly(c, PkgOps(x, group, pkgs, j), PkgOps(x, group, pkgs, |pkgs|), env);
  }

  lemma {:induction false} GroupOpsPrefix(x: Context, groups: seq<Group>, i: nat, n: nat)
    requires i <= n <= |groups|
    ensures GroupOps(x, groups, i) <= GroupOps(x, groups, n)
  {
    if i < n {
      GroupOpsPrefix(x, groups, i, n - 1);
    }
  }
}
