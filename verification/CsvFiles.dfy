/** What the files of the CSV store look like after any sequence of reports. */
module CsvFiles {
  import opened Text
  import opened Payloads
  import opened CsvLine
  import opened CsvStore

  // ----- The shape of a file

  /** A row starts with its timestamp; a header does not start with a digit. */
  predicate Stamped(prefix: seq<CString>) {
    |prefix| == 5 && prefix[0] != "" && IsDigit(prefix[0][0])
  }

  ghost predicate RowOf(line: string, order: seq<CString>, prefix: seq<CString>, events: Events) {
    Stamped(prefix) && HasAll(order, events) && line == RowLine(prefix, order, events)
  }

  ghost predicate IsRow(line: string, order: seq<CString>) {
    exists prefix, events :: RowOf(line, order, prefix, events)
  }

  lemma HeaderIsNotRow(names: seq<CString>, order: seq<CString>)
    ensures !IsRow(HeaderLine(names), order)
  {
    assert HeaderLine(names)[0] == 't';
    forall prefix, events
      ensures !RowOf(HeaderLine(names), order, prefix, events)
    {
      if Stamped(prefix) && HasAll(order, events) {
        RowStarts(prefix, order, events);
      }
    }
  }

  lemma RowStarts(prefix: seq<CString>, order: seq<CString>, events: Events)
    requires Stamped(prefix) && HasAll(order, events)
    ensures RowLine(prefix, order, events) != "" && IsDigit(RowLine(prefix, order, events)[0])
  {}

  /** Every line after the first is a row in the column order of the group. */
  ghost predicate RowsFollow(lines: seq<string>, order: seq<CString>) {
    forall i :: 1 <= i < |lines| ==> IsRow(lines[i], order)
  }

  ghost predicate FileOk(lines: seq<string>, order: seq<CString>) {
    && Sorted(order)
    && lines != [] && lines[0] == HeaderLine(order)
    && RowsFollow(lines, order)
  }

  /** Every open file is empty, or one sorted header followed by rows only; the groups with a
      column order are open files, exactly the ones that are not empty. */
  ghost predicate Valid(s: Store) {
    && s.orders.Keys <= s.files.Keys
    && forall g :: g in s.files ==>
         if g in s.orders then FileOk(s.files[g], s.orders[g]) else s.files[g] == []
  }

  // ----- One line at a time

  lemma HeaderedIsValid(s: Store, s': Store, g: CString, order: seq<CString>)
    requires Valid(s) && g in s.files && g !in s.orders && Sorted(order)
    requires s'.files == s.files[g := [HeaderLine(order)]] && s'.orders == s.orders[g := order]
    ensures Valid(s')
  {}

  lemma PutHeaderKeeps(s: Store, g: CString, events: Events, env: Environment)
    requires Valid(s) && g in s.files && g !in s.orders
    ensures Valid(PutHeader(s, g, events, env).1)
    ensures PutHeader(s, g, events, env).1.files.Keys == s.files.Keys
    ensures PutHeader(s, g, events, env).0 ==> PutHeader(s, g, events, env).1.orders.Keys == s.orders.Keys + {g}
    ensures !PutHeader(s, g, events, env).0 ==> PutHeader(s, g, events, env).1.orders == s.orders
  {
    var (ok, s') := PutHeader(s, g, events, env);
    if ok {
      assert [] + [HeaderLine(HeaderOrder(events.Keys))] == [HeaderLine(HeaderOrder(events.Keys))];
      HeaderedIsValid(s, s', g, HeaderOrder(events.Keys));
    }
  }

  lemma PutRowKeeps(s: Store, g: CString, prefix: seq<CString>, events: Events, env: Environment)
    requires Valid(s) && g in s.files && Stamped(prefix)
    ensures Valid(PutRow(s, g, prefix, events, env).1)
    ensures PutRow(s, g, prefix, events, env).1.files.Keys == s.files.Keys
    ensures PutRow(s, g, prefix, events, env).1.orders == s.orders
    ensures PutRow(s, g, prefix, events, env).0 ==> g in s.orders
  {
    var (ok, s') := PutRow(s, g, prefix, events, env);
    if ok {
      assert RowOf(RowLine(prefix, s.orders[g], events), s.orders[g], prefix, events);
    }
  }

  lemma WriteCpuKeeps(c: Call, g: CString, prefix: seq<CString>, events: Events, env: Environment)
    requires Valid(c.store) && g in c.store.files && Stamped(prefix)
    requires c.writeHeader ==> g !in c.store.orders
    ensures var c' := WriteCpu(c, g, prefix, events, env);
      && Valid(c'.store) && c'.store.files.Keys == c.store.files.Keys
      && (c'.ok ==> !c'.writeHeader && c'.store.orders.Keys == c.store.orders.Keys + {g})
  {
    if c.writeHeader {
      PutHeaderKeeps(c.store, g, events, env);
      var (headed, s) := PutHeader(c.store, g, events, env);
      if headed {
        PutRowKeeps(s, g, prefix, events, env);
      }
    } else {
      PutRowKeeps(c.store, g, prefix, events, env);
    }
  }

  // ----- One group at a time

  ghost predicate WritesOf(ops: seq<Op>, g: CString) {
    forall i :: 0 <= i < |ops| ==> ops[i].Write? && ops[i].group == g && Stamped(ops[i].prefix)
  }

  lemma {:induction false} WritesKeep(c: Call, ops: seq<Op>, g: CString, env: Environment)
    requires c.ok && Valid(c.store) && g in c.store.files && WritesOf(ops, g)
    requires c.writeHeader && ops != [] ==> g !in c.store.orders
    ensures var c' := Exec(c, ops, env);
      && Valid(c'.store) && c'.store.files.Keys == c.store.files.Keys
      && (c'.ok ==>
           && c'.writeHeader == (c.writeHeader && ops == [])
           && c'.store.orders.Keys == c.store.orders.Keys + if ops == [] then {} else {g})
  {
    if ops != [] {
      var before, last := ops[..|ops| - 1], ops[|ops| - 1];
      WritesKeep(c, before, g, env);
      var m := Exec(c, before, env);
      if m.ok {
        WriteCpuKeeps(m, g, last.prefix, last.events, env);
      }
    }
  }

  lemma {:induction false} CpuOpsAreWrites(x: Context, g: CString, pkg: Pkg, n: nat)
    requires n <= |pkg.cpus|
    ensures WritesOf(CpuOps(x, g, pkg, n), g)
  {
    if n > 0 {
      CpuOpsAreWrites(x, g, pkg, n - 1);
    }
  }

  lemma {:induction false} PkgOpsAreWrites(x: Context, g: CString, pkgs: seq<Pkg>, n: nat)
    requires n <= |pkgs|
    ensures WritesOf(PkgOps(x, g, pkgs, n), g)
  {
    if n > 0 {
      PkgOpsAreWrites(x, g, pkgs, n - 1);
      CpuOpsAreWrites(x, g, pkgs[n - 1], |pkgs[n - 1].cpus|);
    }
  }

  predicate HasCpu(g: Group) { CpuCount(g.pkgs, |g.pkgs|) > 0 }

  /** The tables' keys and the flag, as the groups of a report go by. */
  datatype Keys = Keys(files: set<CString>, orders: set<CString>, writeHeader: bool)

  /** The flag when the CPUs of a group are about to be written. */
  predicate Flag(k: Keys, g: Group) { k.writeHeader || g.name !in k.files }

  function NextKeys(k: Keys, g: Group): Keys {
    if HasCpu(g) then Keys(k.files + {g.name}, k.orders + {g.name}, false)
    else Keys(k.files + {g.name}, k.orders, Flag(k, g))
  }

  function KeysOf(c: Call): Keys { Keys(c.store.files.Keys, c.store.orders.Keys, c.writeHeader) }

  function KeysAfter(k: Keys, groups: seq<Group>, n: nat): Keys
    requires n <= |groups|
  {
    if n == 0 then k else NextKeys(KeysAfter(k, groups, n - 1), groups[n - 1])
  }

  /** The flag set for a group without CPUs reaches a group that has its header already. */
  predicate Leak(k: Keys, g: Group) { HasCpu(g) && Flag(k, g) && g.name in k.orders }

  predicate Leaks(k: Keys, groups: seq<Group>, n: nat)
    requires n <= |groups|
  {
    n > 0 && (Leaks(k, groups, n - 1) || Leak(KeysAfter(k, groups, n - 1), groups[n - 1]))
  }

  ghost function OneGroup(c: Call, x: Context, g: Group, env: Environment): Call {
    Exec(c, [Visit(g.name)] + Writes(x, g), env)
  }

  lemma VisitFirst(c: Call, x: Context, g: Group, env: Environment)
    ensures OneGroup(c, x, g, env) == Exec(Step(c, Visit(g.name), env), Writes(x, g), env)
    ensures WritesOf(Writes(x, g), g.name) && (Writes(x, g) != [] <==> HasCpu(g))
  {
    ExecConcat(c, [Visit(g.name)], Writes(x, g), env);
    ExecOne(c, Visit(g.name), env);
    PkgOpsAreWrites(x, g.name, g.pkgs, |g.pkgs|);
  }

  lemma FailedGroup(c: Call, x: Context, g: Group, env: Environment)
    requires !c.ok
    ensures OneGroup(c, x, g, env) == c
  {
    ExecFailed(c, [Visit(g.name)] + Writes(x, g), env);
  }

  lemma VisitKeeps(c: Call, g: CString, env: Environment)
    requires c.ok && Valid(c.store)
    ensures var c' := Step(c, Visit(g), env);
      && Valid(c'.store) && c'.store.orders == c.store.orders
      && (c'.ok ==> c'.store.files.Keys == c.store.files.Keys + {g}
                    && c'.writeHeader == (c.writeHeader || g !in c.store.files))
  {}

  lemma GroupKeeps(c: Call, x: Context, g: Group, env: Environment)
    requires c.ok && Valid(c.store) && !Leak(KeysOf(c), g)
    ensures var c' := OneGroup(c, x, g, env);
      Valid(c'.store) && (c'.ok ==> KeysOf(c') == NextKeys(KeysOf(c), g))
  {
    VisitFirst(c, x, g, env);
    VisitKeeps(c, g.name, env);
    var v := Step(c, Visit(g.name), env);
    if v.ok {
      WritesKeep(v, Writes(x, g), g.name, env);
    } else {
      ExecFailed(v, Writes(x, g), env);
    }
  }

  // ----- A second header is never taken back

  ghost predicate BrokenAt(s: Store, g: CString, i: nat) {
    g in s.orders && g in s.files && 1 <= i < |s.files[g]| && !IsRow(s.files[g][i], s.orders[g])
  }

  ghost predicate Broken(s: Store) { exists g, i :: BrokenAt(s, g, i) }

  lemma BrokenIsNotValid(s: Store)
    requires Broken(s)
    ensures !Valid(s)
  {}

  /** Files are only appended to, and a column order is never replaced. */
  ghost predicate Extends(s: Store, s': Store) {
    && (forall g :: g in s.files ==> g in s'.files && s.files[g] <= s'.files[g])
    && (forall g :: g in s.orders ==> g in s'.orders && s.orders[g] == s'.orders[g])
  }

  lemma PutLineExtends(s: Store, g: CString, line: string, env: Environment)
    requires g in s.files
    ensures Extends(s, PutLine(s, g, line, env).1)
  {}

  lemma PutRowExtends(s: Store, g: CString, prefix: seq<CString>, events: Events, env: Environment)
    requires g in s.files
    ensures Extends(s, PutRow(s, g, prefix, events, env).1)
  {
    if prefix != [] && g in s.orders && HasAll(s.orders[g], events) {
      PutLineExtends(s, g, RowLine(prefix, s.orders[g], events), env);
    }
  }

  lemma ExtendsTrans(a: Store, b: Store, c: Store)
    requires Extends(a, b) && Extends(b, c)
    ensures Extends(a, c)
  {
    forall g | g in a.files
      ensures g in c.files && a.files[g] <= c.files[g]
    {
      assert g in b.files && a.files[g] <= b.files[g] <= c.files[g];
    }
  }

  lemma WriteCpuExtends(c: Call, g: CString, prefix: seq<CString>, events: Events, env: Environment)
    requires g in c.store.files
    ensures Extends(c.store, WriteCpu(c, g, prefix, events, env).store)
  {
    var order := HeaderOrder(events.Keys);
    PutLineExtends(c.store, g, HeaderLine(order), env);
    var s := if c.writeHeader then PutHeader(c.store, g, events, env).1 else c.store;
    assert Extends(c.store, s);
    PutRowExtends(s, g, prefix, events, env);
    ExtendsTrans(c.store, s, PutRow(s, g, prefix, events, env).1);
  }

  lemma StepExtends(c: Call, op: Op, env: Environment)
    ensures Extends(c.store, Step(c, op, env).store)
  {
    if c.ok && op.Write? && op.group in c.store.files {
      WriteCpuExtends(c, op.group, op.prefix, op.events, env);
    }
  }

  lemma {:induction false} ExecExtends(c: Call, ops: seq<Op>, env: Environment)
    ensures Extends(c.store, Exec(c, ops, env).store)
  {
    if ops != [] {
      ExecExtends(c, ops[..|ops| - 1], env);
      var m := Exec(c, ops[..|ops| - 1], env);
      StepExtends(m, ops[|ops| - 1], env);
      ExtendsTrans(c.store, m.store, Exec(c, ops, env).store);
    }
  }

  lemma BrokenStays(s: Store, s': Store)
    requires Broken(s) && Extends(s, s')
    ensures Broken(s')
  {
    var g, i :| BrokenAt(s, g, i);
    assert BrokenAt(s', g, i);
  }

  lemma SecondHeader(c: Call, g: CString, prefix: seq<CString>, events: Events, env: Environment)
    requires Valid(c.store) && c.writeHeader && g in c.store.orders
    requires PutHeader(c.store, g, events, env).0
    ensures Broken(WriteCpu(c, g, prefix, events, env).store)
  {
    var names := HeaderOrder(events.Keys);
    HeaderIsNotRow(names, c.store.orders[g]);
    var at := |c.store.files[g]|;
    var s := PutHeader(c.store, g, events, env).1;
    assert s.files[g][at] == HeaderLine(names);
    assert BrokenAt(s, g, at);
    PutRowExtends(s, g, prefix, events, env);
    BrokenStays(s, WriteCpu(c, g, prefix, events, env).store);
  }

  lemma SplitFirst(c: Call, ops: seq<Op>, env: Environment)
    requires ops != []
    ensures Exec(c, ops, env) == Exec(Step(c, ops[0], env), ops[1..], env)
  {
    assert ops == [ops[0]] + ops[1..];
    ExecConcat(c, [ops[0]], ops[1..], env);
    ExecOne(c, ops[0], env);
  }

  lemma GroupBreaks(c: Call, x: Context, g: Group, env: Environment)
    requires c.ok && Valid(c.store) && Leak(KeysOf(c), g)
    requires OneGroup(c, x, g, env).ok
    ensures Broken(OneGroup(c, x, g, env).store)
  {
    VisitFirst(c, x, g, env);
    VisitKeeps(c, g.name, env);
    var v, ops := Step(c, Visit(g.name), env), Writes(x, g);
    SplitFirst(v, ops, env);
    var first := Step(v, ops[0], env);
    if !v.ok || !first.ok {
      ExecFailed(first, ops[1..], env);
    } else {
      SecondHeader(v, g.name, ops[0].prefix, ops[0].events, env);
      ExecExtends(first, ops[1..], env);
      BrokenStays(first.store, OneGroup(c, x, g, env).store);
    }
  }

  // ----- Whole reports

  function StartKeys(s: Store): Keys { Keys(s.files.Keys, s.orders.Keys, false) }

  ghost function AfterGroups(s: Store, x: Context, groups: seq<Group>, n: nat, env: Environment): Call
    requires n <= |groups|
  {
    Exec(Call(true, false, s), GroupOps(x, groups, n), env)
  }

  lemma NextGroup(s: Store, x: Context, groups: seq<Group>, n: nat, env: Environment)
    requires n < |groups|
    ensures AfterGroups(s, x, groups, n + 1, env) == OneGroup(AfterGroups(s, x, groups, n, env), x, groups[n], env)
  {
    ExecConcat(Call(true, false, s), GroupOps(x, groups, n), [Visit(groups[n].name)] + Writes(x, groups[n]), env);
  }

  /** What is known of a call once groups have been written: `keys` go by with them. */
  ghost predicate KeptUnless(c: Call, keys: Keys, leaks: bool) {
    && (!leaks ==> Valid(c.store) && (c.ok ==> KeysOf(c) == keys))
    && (leaks && c.ok ==> Broken(c.store))
  }

  lemma GroupKept(c: Call, keys: Keys, leaks: bool, x: Context, g: Group, env: Environment)
    requires KeptUnless(c, keys, leaks)
    ensures KeptUnless(OneGroup(c, x, g, env), NextKeys(keys, g), leaks || Leak(keys, g))
  {
    if !c.ok {
      FailedGroup(c, x, g, env);
    } else if leaks {
      ExecExtends(c, [Visit(g.name)] + Writes(x, g), env);
      BrokenStays(c.store, OneGroup(c, x, g, env).store);
    } else if Leak(keys, g) {
      if OneGroup(c, x, g, env).ok {
        GroupBreaks(c, x, g, env);
      }
    } else {
      GroupKeeps(c, x, g, env);
    }
  }

  lemma GroupsKeepNext(s: Store, x: Context, groups: seq<Group>, n: nat, env: Environment, c: Call, keys: Keys, leaks: bool)
    requires n < |groups| && KeptUnless(c, keys, leaks)
    requires c == AfterGroups(s, x, groups, n, env)
    requires keys == KeysAfter(StartKeys(s), groups, n) && leaks == Leaks(StartKeys(s), groups, n)
    ensures KeptUnless(AfterGroups(s, x, groups, n + 1, env), KeysAfter(StartKeys(s), groups, n + 1), Leaks(StartKeys(s), groups, n + 1))
  {
    NextGroup(s, x, groups, n, env);
    GroupKept(c, keys, leaks, x, groups[n], env);
  }

  lemma NoGroupKept(s: Store, x: Context, groups: seq<Group>, env: Environment)
    requires Valid(s)
    ensures KeptUnless(AfterGroups(s, x, groups, 0, env), KeysAfter(StartKeys(s), groups, 0), Leaks(StartKeys(s), groups, 0))
  {}

  /** `c`, `keys` and `leaks` are the call, the keys and the verdict after the first `n` groups. */
  lemma {:induction false} GroupsKeep(s: Store, x: Context, groups: seq<Group>, n: nat, env: Environment, c: Call, keys: Keys, leaks: bool)
    requires n <= |groups| && Valid(s)
    requires c == AfterGroups(s, x, groups, n, env)
    requires keys == KeysAfter(StartKeys(s), groups, n) && leaks == Leaks(StartKeys(s), groups, n)
    ensures KeptUnless(c, keys, leaks)
  {
    if n == 0 {
      NoGroupKept(s, x, groups, env);
    } else {
      var c', keys', leaks' :=
        AfterGroups(s, x, groups, n - 1, env), KeysAfter(StartKeys(s), groups, n - 1), Leaks(StartKeys(s), groups, n - 1);
      GroupsKeep(s, x, groups, n - 1, env, c', keys', leaks');
      GroupsKeepNext(s, x, groups, n - 1, env, c', keys', leaks');
    }
  }

  /** A report keeps every file well formed, failing or not, when no flag leaks; and a successful
      report keeps them well formed only then. A caller can tell from the report and from the
      groups seen so far. */
  lemma ReportKeepsFiles(s: Store, x: Context, groups: seq<Group>, env: Environment)
    requires Valid(s)
    ensures var c := StoreReport(s, x, groups, env);
      && (!Leaks(StartKeys(s), groups, |groups|) ==> Valid(c.store))
      && (c.ok ==> (Valid(c.store) <==> !Leaks(StartKeys(s), groups, |groups|)))
  {
    var c, n := StoreReport(s, x, groups, env), |groups|;
    GroupsKeep(s, x, groups, n, env, c, KeysAfter(StartKeys(s), groups, n), Leaks(StartKeys(s), groups, n));
    if Leaks(StartKeys(s), groups, |groups|) && c.ok {
      BrokenIsNotValid(c.store);
    }
  }

  ghost predicate AllHaveCpus(groups: seq<Group>) {
    forall k :: 0 <= k < |groups| ==> HasCpu(groups[k])
  }

  /** The flag never leaks from a report in which every group has a CPU. */
  lemma {:induction false} CpusDoNotLeak(k: Keys, groups: seq<Group>, n: nat)
    requires n <= |groups| && AllHaveCpus(groups)
    requires !k.writeHeader && k.orders <= k.files
    ensures !Leaks(k, groups, n)
    ensures !KeysAfter(k, groups, n).writeHeader && KeysAfter(k, groups, n).orders <= KeysAfter(k, groups, n).files
  {
    if n > 0 {
      CpusDoNotLeak(k, groups, n - 1);
    }
  }

  datatype Report = Report(x: Context, groups: seq<Group>)

  ghost function Reports(reports: seq<Report>, env: Environment): Store {
    if reports == [] then Store(map[], map[], 0)
    else
      var last := reports[|reports| - 1];
      StoreReport(Reports(reports[..|reports| - 1], env), last.x, last.groups, env).store
  }

  /** Whatever opens and writes fail, after any sequence of reports every file is empty or one
      sorted header followed by rows in its order. */
  lemma {:induction false} FilesStayWellFormed(reports: seq<Report>, env: Environment)
    requires forall i :: 0 <= i < |reports| ==> AllHaveCpus(reports[i].groups)
    ensures Valid(Reports(reports, env))
  {
    if reports != [] {
      var before, last := reports[..|reports| - 1], reports[|reports| - 1];
      FilesStayWellFormed(before, env);
      var s := Reports(before, env);
      CpusDoNotLeak(StartKeys(s), last.groups, |last.groups|);
      ReportKeepsFiles(s, last.x, last.groups, env);
    }
  }

  /** Without the flag, a group whose header is missing takes no row: the report fails there and
      writes nothing more. */
  lemma HeaderlessGroupFails(c: Call, x: Context, g: Group, env: Environment)
    requires c.ok && !c.writeHeader && HasCpu(g)
    requires g.name in c.store.files && g.name !in c.store.orders
    ensures OneGroup(c, x, g, env) == Call(false, false, c.store)
  {
    VisitFirst(c, x, g, env);
    SplitFirst(c, Writes(x, g), env);
    ExecFailed(Call(false, false, c.store), Writes(x, g)[1..], env);
  }
}
