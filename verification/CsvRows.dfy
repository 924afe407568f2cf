/** Exactly which lines a report adds to the files of the CSV store. */
module CsvRows {
  import opened Text
  import opened Payloads
  import opened CsvLine
  import opened CsvStore
  import opened CsvFiles

  /** A write of a CPU that has a value for every column. */
  predicate IsRowOp(op: Op, order: seq<CString>) { op.Write? && op.prefix != [] && HasAll(order, op.events) }

  predicate AreRowOps(ops: seq<Op>, order: seq<CString>) { forall i :: 0 <= i < |ops| ==> IsRowOp(ops[i], order) }

  function LineOf(op: Op, order: seq<CString>): string
    requires IsRowOp(op, order)
  {
    RowLine(op.prefix, order, op.events)
  }

  function Lines(ops: seq<Op>, order: seq<CString>): (lines: seq<string>)
    requires AreRowOps(ops, order)
    ensures |lines| == |ops| && forall i :: 0 <= i < |lines| ==> lines[i] == LineOf(ops[i], order)
  {
    seq(|ops|, i requires 0 <= i < |ops| => LineOf(ops[i], order))
  }

  /** One row: written or not. */
  lemma RowAppends(c: Call, op: Op, g: CString, env: Environment)
    requires c.ok && !c.writeHeader && g in c.store.files && g in c.store.orders
    requires op.Write? && op.group == g && Stamped(op.prefix)
    ensures var c' := Step(c, op, env);
      && c'.store.orders == c.store.orders && !c'.writeHeader
      && (c'.ok ==> IsRowOp(op, c.store.orders[g])
                    && c'.store.files == c.store.files[g := c.store.files[g] + [LineOf(op, c.store.orders[g])]])
      && (!c'.ok ==> c'.store.files == c.store.files)
  {}

  /** The first `n` of the writes are in the file; all of them, unless the call failed. */
  ghost predicate Appended(c: Call, c': Call, ops: seq<Op>, n: nat, g: CString)
    requires g in c.store.files && g in c.store.orders
  {
    && n <= |ops| && AreRowOps(ops[..n], c.store.orders[g])
    && c'.store.orders == c.store.orders && !c'.writeHeader
    && c'.store.files == c.store.files[g := c.store.files[g] + Lines(ops[..n], c.store.orders[g])]
    && (c'.ok ==> n == |ops|)
  }

  lemma NothingAppended(c: Call, g: CString)
    requires !c.writeHeader && g in c.store.files && g in c.store.orders
    ensures Appended(c, c, [], 0, g)
  {
    assert c.store.files[g] + Lines([], c.store.orders[g]) == c.store.files[g];
  }

  lemma LinesNext(lines: seq<string>, ops: seq<Op>, op: Op, order: seq<CString>)
    requires AreRowOps(ops, order) && IsRowOp(op, order)
    ensures AreRowOps(ops + [op], order)
    ensures lines + Lines(ops + [op], order) == (lines + Lines(ops, order)) + [LineOf(op, order)]
  {
    assert Lines(ops + [op], order) == Lines(ops, order) + [LineOf(op, order)];
  }

  lemma AppendStops(c: Call, m: Call, c': Call, ops: seq<Op>, op: Op, n: nat, g: CString)
    requires g in c.store.files && g in c.store.orders && Appended(c, m, ops, n, g)
    requires !c'.ok && c'.store.orders == m.store.orders && !c'.writeHeader && c'.store.files == m.store.files
    ensures Appended(c, c', ops + [op], n, g)
  {
    assert (ops + [op])[..n] == ops[..n];
  }

  lemma AppendNext(c: Call, m: Call, c': Call, ops: seq<Op>, op: Op, g: CString)
    requires g in c.store.files && g in c.store.orders && Appended(c, m, ops, |ops|, g)
    requires IsRowOp(op, c.store.orders[g]) && c'.store.orders == m.store.orders && !c'.writeHeader
    requires g in m.store.files && c'.store.files == m.store.files[g := m.store.files[g] + [LineOf(op, c.store.orders[g])]]
    ensures Appended(c, c', ops + [op], |ops| + 1, g)
  {
    var all, order := ops + [op], c.store.orders[g];
    assert ops[..|ops|] == ops && all[..|all|] == all;
    LinesNext(c.store.files[g], ops, op, order);
  }

  /** Rows are appended in order, all of them or, when the call fails, the first `n`. */
  lemma {:induction false} WritesAppend(c: Call, ops: seq<Op>, g: CString, env: Environment) returns (n: nat)
    requires c.ok && !c.writeHeader && g in c.store.files && g in c.store.orders && WritesOf(ops, g)
    ensures Appended(c, Exec(c, ops, env), ops, n, g)
  {
    if ops == [] {
      n := 0;
      NothingAppended(c, g);
    } else {
      var before, last := ops[..|ops| - 1], ops[|ops| - 1];
      assert ops == before + [last];
      n := WritesAppend(c, before, g, env);
      n := OneMoreWrite(c, Exec(c, before, env), before, last, n, g, env);
    }
  }

  lemma OneMoreWrite(c: Call, m: Call, ops: seq<Op>, op: Op, n: nat, g: CString, env: Environment) returns (n': nat)
    requires g in c.store.files && g in c.store.orders && Appended(c, m, ops, n, g)
    requires op.Write? && op.group == g && Stamped(op.prefix)
    ensures Appended(c, Step(m, op, env), ops + [op], n', g)
  {
    n' := n;
    if !m.ok {
      AppendStops(c, m, m, ops, op, n, g);
    } else {
      RowAppends(m, op, g, env);
      var c' := Step(m, op, env);
      if c'.ok {
        AppendNext(c, m, c', ops, op, g);
        n' := n + 1;
      } else {
        AppendStops(c, m, c', ops, op, n, g);
      }
    }
  }

  /** What the file of a group holds after a report that succeeded: what it held, its header if
      it had none, and one row for each CPU of the group in the report. */
  ghost predicate Added(s: Store, s': Store, x: Context, g: Group) {
    && g.name in s'.files && g.name in s'.orders
    && (g.name in s.orders ==> s'.orders[g.name] == s.orders[g.name])
    && AreRowOps(Writes(x, g), s'.orders[g.name])
    && s'.files[g.name] ==
         (if g.name in s.files then s.files[g.name] else [])
         + (if g.name in s.orders then [] else [HeaderLine(s'.orders[g.name])])
         + Lines(Writes(x, g), s'.orders[g.name])
  }

  /** Nothing changed but the entries of one group. */
  ghost predicate OnlyGroup(s: Store, s': Store, g: CString) {
    && s'.files - {g} == s.files - {g}
    && s'.orders - {g} == s.orders - {g}
  }

  lemma FirstWrite(c: Call, op: Op, g: CString, env: Environment)
    requires c.ok && c.writeHeader && op.Write? && op.group == g && Stamped(op.prefix)
    requires g in c.store.files && g !in c.store.orders && c.store.files[g] == []
    ensures var c' := Step(c, op, env); c'.ok ==>
      && !c'.writeHeader && g in c'.store.files && g in c'.store.orders
      && OnlyGroup(c.store, c'.store, g) && IsRowOp(op, c'.store.orders[g])
      && c'.store.files[g] == [HeaderLine(c'.store.orders[g]), LineOf(op, c'.store.orders[g])]
  {}

  /** The CPUs of a group that has its header. */
  lemma OldFileAppends(c: Call, ops: seq<Op>, g: CString, env: Environment)
    requires c.ok && !c.writeHeader && g in c.store.files && g in c.store.orders && WritesOf(ops, g)
    ensures var c' := Exec(c, ops, env); c'.ok ==>
      && !c'.writeHeader && c'.store.orders == c.store.orders && g in c'.store.files
      && OnlyGroup(c.store, c'.store, g) && AreRowOps(ops, c.store.orders[g])
      && c'.store.files[g] == c.store.files[g] + Lines(ops, c.store.orders[g])
  {
    var n := WritesAppend(c, ops, g, env);
    assert ops[..|ops|] == ops;
  }

  lemma HeaderThenLines(ops: seq<Op>, order: seq<CString>)
    requires ops != [] && IsRowOp(ops[0], order) && AreRowOps(ops[1..], order)
    ensures AreRowOps(ops, order)
    ensures [HeaderLine(order), LineOf(ops[0], order)] + Lines(ops[1..], order) == [HeaderLine(order)] + Lines(ops, order)
  {
    forall i | 1 <= i < |ops|
      ensures IsRowOp(ops[i], order) && ops[i] == ops[1..][i - 1]
    {
      assert IsRowOp(ops[1..][i - 1], order);
    }
    assert Lines(ops, order) == [LineOf(ops[0], order)] + Lines(ops[1..], order);
  }

  /** The CPUs of a group whose file was just opened. */
  lemma NewFileAppends(c: Call, ops: seq<Op>, g: CString, env: Environment)
    requires c.ok && c.writeHeader && ops != [] && WritesOf(ops, g)
    requires g in c.store.files && g !in c.store.orders && c.store.files[g] == []
    ensures var c' := Exec(c, ops, env); c'.ok ==>
      && !c'.writeHeader && g in c'.store.files && g in c'.store.orders
      && OnlyGroup(c.store, c'.store, g) && AreRowOps(ops, c'.store.orders[g])
      && c'.store.files[g] == [HeaderLine(c'.store.orders[g])] + Lines(ops, c'.store.orders[g])
  {
    SplitFirst(c, ops, env);
    var first := Step(c, ops[0], env);
    FirstWrite(c, ops[0], g, env);
    if first.ok {
      OldFileAppends(first, ops[1..], g, env);
      if Exec(first, ops[1..], env).ok {
        HeaderThenLines(ops, first.store.orders[g]);
      }
    } else {
      ExecFailed(first, ops[1..], env);
    }
  }

  /** A group is added, and nothing else, if the call is still successful. */
  ghost predicate AddsGroup(c: Call, c': Call, x: Context, g: Group) {
    c'.ok ==> !c'.writeHeader && Added(c.store, c'.store, x, g) && OnlyGroup(c.store, c'.store, g.name)
  }

  lemma AddedToNew(s: Store, s': Store, x: Context, g: Group)
    requires g.name !in s.files && g.name !in s.orders && g.name in s'.files && g.name in s'.orders
    requires AreRowOps(Writes(x, g), s'.orders[g.name])
    requires s'.files[g.name] == [HeaderLine(s'.orders[g.name])] + Lines(Writes(x, g), s'.orders[g.name])
    ensures Added(s, s', x, g)
  {
    assert [] + [HeaderLine(s'.orders[g.name])] == [HeaderLine(s'.orders[g.name])];
  }

  lemma AddedToOld(s: Store, s': Store, x: Context, g: Group)
    requires g.name in s.files && g.name in s.orders && g.name in s'.files && s'.orders == s.orders
    requires AreRowOps(Writes(x, g), s'.orders[g.name])
    requires s'.files[g.name] == s.files[g.name] + Lines(Writes(x, g), s'.orders[g.name])
    ensures Added(s, s', x, g)
  {
    assert s.files[g.name] + [] == s.files[g.name];
  }

  lemma NewGroupAdds(c: Call, x: Context, g: Group, env: Environment)
    requires c.ok && HasCpu(g) && g.name !in c.store.files && g.name !in c.store.orders
    ensures AddsGroup(c, OneGroup(c, x, g, env), x, g)
  {
    VisitFirst(c, x, g, env);
    var ops, v := Writes(x, g), Step(c, Visit(g.name), env);
    if v.ok {
      NewFileAppends(v, ops, g.name, env);
      if OneGroup(c, x, g, env).ok {
        NewFileOnly(c.store, v.store, OneGroup(c, x, g, env).store, g.name);
        AddedToNew(c.store, OneGroup(c, x, g, env).store, x, g);
      }
    } else {
      ExecFailed(v, ops, env);
    }
  }

  lemma OldGroupAdds(c: Call, x: Context, g: Group, env: Environment)
    requires c.ok && !c.writeHeader && HasCpu(g) && g.name in c.store.files
    ensures AddsGroup(c, OneGroup(c, x, g, env), x, g)
  {
    if g.name in c.store.orders {
      VisitFirst(c, x, g, env);
      OldFileAppends(c, Writes(x, g), g.name, env);
      if OneGroup(c, x, g, env).ok {
        AddedToOld(c.store, OneGroup(c, x, g, env).store, x, g);
      }
    } else {
      HeaderlessGroupFails(c, x, g, env);
    }
  }

  lemma NewFileOnly(s: Store, v: Store, s': Store, g: CString)
    requires g !in s.files && g !in s.orders && v.files == s.files[g := []] && v.orders == s.orders
    requires OnlyGroup(v, s', g)
    ensures OnlyGroup(s, s', g)
  {
    assert v.files - {g} == s.files - {g};
  }

  ghost predicate DistinctGroups(groups: seq<Group>) {
    forall i, j :: 0 <= i < j < |groups| ==> groups[i].name != groups[j].name
  }

  /** Group `g` has the same file and column order in both. */
  ghost predicate Untouched(s: Store, s': Store, g: CString) {
    && (g in s.files <==> g in s'.files) && (g in s.orders <==> g in s'.orders)
    && (g in s.files ==> s.files[g] == s'.files[g])
    && (g in s.orders ==> s.orders[g] == s'.orders[g])
  }

  ghost predicate Reported(groups: seq<Group>, n: nat, g: CString)
    requires n <= |groups|
  {
    exists k :: 0 <= k < n && groups[k].name == g
  }

  lemma AddedFrom(s: Store, c: Store, s': Store, x: Context, g: Group)
    requires Untouched(s, c, g.name) && Added(c, s', x, g)
    ensures Added(s, s', x, g)
  {}

  lemma AddedStays(s: Store, c: Store, s': Store, x: Context, g: Group)
    requires Added(s, c, x, g) && Untouched(c, s', g.name)
    ensures Added(s, s', x, g)
  {}

  /** The first `n` groups of a report have been added to the files, and nothing else. */
  ghost predicate AddedUpTo(s: Store, s': Store, x: Context, groups: seq<Group>, n: nat)
    requires n <= |groups|
  {
    && (forall k :: 0 <= k < n ==> Added(s, s', x, groups[k]))
    && (forall g :: !Reported(groups, n, g) ==> Untouched(s, s', g))
  }

  lemma AddedNext(s: Store, c: Store, s': Store, x: Context, groups: seq<Group>, n: nat)
    requires n < |groups| && DistinctGroups(groups) && AddedUpTo(s, c, x, groups, n)
    requires Added(c, s', x, groups[n]) && OnlyGroup(c, s', groups[n].name)
    ensures AddedUpTo(s, s', x, groups, n + 1)
  {
    UntouchedStays(c, s', groups[n].name);
    assert !Reported(groups, n, groups[n].name);
    AddedFrom(s, c, s', x, groups[n]);
    forall k | 0 <= k < n
      ensures Added(s, s', x, groups[k])
    {
      AddedStays(s, c, s', x, groups[k]);
    }
    forall h | !Reported(groups, n + 1, h)
      ensures Untouched(s, s', h)
    {
      assert groups[n].name != h;
      assert !Reported(groups, n, h);
      assert Untouched(s, c, h) && Untouched(c, s', h);
    }
  }

  /** What writing a group does to a call. */
  ghost predicate Keeps(c: Call, c': Call, x: Context, g: Group) {
    && (!c.ok ==> !c'.ok)
    && (c.ok && !c.writeHeader && Valid(c.store) && c'.ok ==>
         Valid(c'.store) && AddsGroup(c, c', x, g))
  }

  lemma GroupStep(c: Call, x: Context, g: Group, env: Environment)
    requires HasCpu(g)
    ensures Keeps(c, OneGroup(c, x, g, env), x, g)
  {
    if !c.ok {
      FailedGroup(c, x, g, env);
    } else if !c.writeHeader && Valid(c.store) {
      GroupKeeps(c, x, g, env);
      if g.name in c.store.files {
        OldGroupAdds(c, x, g, env);
      } else {
        NewGroupAdds(c, x, g, env);
      }
    }
  }

  lemma NextStep(s: Store, x: Context, groups: seq<Group>, n: nat, env: Environment)
    requires n < |groups| && HasCpu(groups[n])
    ensures Keeps(AfterGroups(s, x, groups, n, env), AfterGroups(s, x, groups, n + 1, env), x, groups[n])
  {
    NextGroup(s, x, groups, n, env);
    GroupStep(AfterGroups(s, x, groups, n, env), x, groups[n], env);
  }

  /** The call is still successful only if the first `n` groups were added. */
  ghost predicate AddsUpTo(c: Call, c': Call, x: Context, groups: seq<Group>, n: nat)
    requires n <= |groups|
  {
    c'.ok ==> !c'.writeHeader && Valid(c'.store) && AddedUpTo(c.store, c'.store, x, groups, n)
  }

  lemma OneMoreAdded(c: Call, m: Call, c': Call, x: Context, groups: seq<Group>, n: nat)
    requires n < |groups| && DistinctGroups(groups)
    requires AddsUpTo(c, m, x, groups, n) && Keeps(m, c', x, groups[n])
    ensures AddsUpTo(c, c', x, groups, n + 1)
  {
    if c'.ok {
      AddedNext(c.store, m.store, c'.store, x, groups, n);
    }
  }

  lemma NothingAdded(c: Call, x: Context, groups: seq<Group>)
    requires !c.writeHeader && Valid(c.store)
    ensures AddsUpTo(c, c, x, groups, 0)
  {}

  /** `c` is the call after the first `n` groups. */
  lemma {:induction false} AddedOneByOne(s: Store, x: Context, groups: seq<Group>, n: nat, env: Environment, c: Call)
    requires n <= |groups| && AllHaveCpus(groups) && DistinctGroups(groups) && Valid(s)
    requires c == AfterGroups(s, x, groups, n, env)
    ensures AddsUpTo(Call(true, false, s), c, x, groups, n)
  {
    var start := Call(true, false, s);
    if n == 0 {
      NothingAdded(start, x, groups);
    } else {
      var before := AfterGroups(s, x, groups, n - 1, env);
      AddedOneByOne(s, x, groups, n - 1, env, before);
      NextAdded(s, x, groups, n - 1, env, before, c);
    }
  }

  lemma NextAdded(s: Store, x: Context, groups: seq<Group>, n: nat, env: Environment, m: Call, c: Call)
    requires n < |groups| && AllHaveCpus(groups) && DistinctGroups(groups)
    requires m == AfterGroups(s, x, groups, n, env) && c == AfterGroups(s, x, groups, n + 1, env)
    requires AddsUpTo(Call(true, false, s), m, x, groups, n)
    ensures AddsUpTo(Call(true, false, s), c, x, groups, n + 1)
  {
    NextStep(s, x, groups, n, env);
    OneMoreAdded(Call(true, false, s), m, c, x, groups, n);
  }

  /** A successful report adds to the file of each of its groups, after the header if the file
      is new, exactly one row per CPU in the order of the report, and to no other file. */
  lemma ReportAddsRows(s: Store, x: Context, groups: seq<Group>, n: nat, env: Environment)
    requires n <= |groups| && Valid(s) && AllHaveCpus(groups) && DistinctGroups(groups)
    requires AfterGroups(s, x, groups, n, env).ok
    ensures AddedUpTo(s, AfterGroups(s, x, groups, n, env).store, x, groups, n)
  {
    AddedOneByOne(s, x, groups, n, env, AfterGroups(s, x, groups, n, env));
  }

  /** The row holds its leading fields and, under each column of the header, the CPU's value of
      the event named there. */
  ghost predicate Reads(header: string, row: string, op: Op, order: seq<CString>)
    requires IsRowOp(op, order)
  {
    var names, values := Split(header, ','), Split(row, ',');
    && |names| == |values| == 5 + |order| && values[..5] == op.prefix
    && forall j :: 0 <= j < |order| ==>
         names[5 + j] == order[j] && Read(values[5 + j], Decimal) == Some(op.events[order[j]])
  }

  lemma RowOpReads(op: Op, order: seq<CString>)
    requires IsRowOp(op, order) && |op.prefix| == 5 && Free(op.prefix, ',') && Free(order, ',')
    ensures Reads(HeaderLine(order), LineOf(op, order), op, order)
  {
    RowReads(op.prefix, order, op.events);
  }

  /** The line of a file that holds the i-th row added. */
  function LineAdded(lines: seq<string>, x: Context, g: Group, i: nat): string
    requires i < |Writes(x, g)| <= |lines|
  {
    lines[|lines| - |Writes(x, g)| + i]
  }

  /** In the file of a group, column j of each row that was added is under header column j and is
      that CPU's value of the event named there, when the names hold no comma. */
  lemma RowsHoldValues(s: Store, s': Store, x: Context, g: Group, i: nat)
    requires Valid(s') && Added(s, s', x, g) && i < |Writes(x, g)|
    requires Free(Writes(x, g)[i].prefix, ',') && Free(s'.orders[g.name], ',')
    ensures var lines, op, order := s'.files[g.name], Writes(x, g)[i], s'.orders[g.name];
      |lines| > |Writes(x, g)| && Reads(lines[0], LineAdded(lines, x, g, i), op, order)
  {
    var lines, op, order := s'.files[g.name], Writes(x, g)[i], s'.orders[g.name];
    LineInFile(s, s', x, g, i);
    PkgOpsAreWrites(x, g.name, g.pkgs, |g.pkgs|);
    assert FileOk(lines, order);
    RowOpReads(op, order);
  }

  lemma LineInFile(s: Store, s': Store, x: Context, g: Group, i: nat)
    requires Valid(s') && Added(s, s', x, g) && i < |Writes(x, g)|
    ensures var lines := s'.files[g.name];
      |lines| > |Writes(x, g)| && LineAdded(lines, x, g, i) == LineOf(Writes(x, g)[i], s'.orders[g.name])
  {
    var lines, rows := s'.files[g.name], Lines(Writes(x, g), s'.orders[g.name]);
    assert lines == lines[..|lines| - |rows|] + rows;
    PkgOpsAreWrites(x, g.name, g.pkgs, |g.pkgs|);
    HeaderComesFirst(lines, Writes(x, g)[0], s'.orders[g.name]);
  }

  lemma HeaderComesFirst(lines: seq<string>, op: Op, order: seq<CString>)
    requires FileOk(lines, order) && IsRowOp(op, order) && Stamped(op.prefix)
    ensures lines[0] != LineOf(op, order)
  {
    HeaderIsNotRow(order, order);
    assert RowOf(LineOf(op, order), order, op.prefix, op.events);
  }

  lemma UntouchedStays(s: Store, s': Store, g: CString)
    requires OnlyGroup(s, s', g)
    ensures forall h :: h != g ==> Untouched(s, s', h)
  {
    forall h | h != g
      ensures Untouched(s, s', h)
    {
      assert h in s.files - {g} <==> h in s.files;
      assert h in s'.files - {g} <==> h in s'.files;
      assert h in s.orders - {g} <==> h in s.orders;
      assert h in s'.orders - {g} <==> h in s'.orders;
      assert h in s.files ==> (s.files - {g})[h] == s.files[h];
      assert h in s.orders ==> (s.orders - {g})[h] == s.orders[h];
    }
  }
}
