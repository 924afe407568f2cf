/** When the header of a group is written: once, a second time, or never. */
module CsvHeaders {
  import opened Text
  import opened Payloads
  import opened CsvLine
  import opened CsvStore
  import opened CsvFiles

  // ----- The flag

  lemma {:induction false} WritesFlag(c: Call, ops: seq<Op>, g: CString, env: Environment)
    requires c.ok && g in c.store.files && WritesOf(ops, g)
    ensures var c' := Exec(c, ops, env);
      && c'.store.files.Keys == c.store.files.Keys
      && (c'.ok ==> c'.writeHeader == (c.writeHeader && ops == []))
  {
    if ops != [] {
      WritesFlag(c, ops[..|ops| - 1], g, env);
    }
  }

  lemma GroupFlag(c: Call, x: Context, g: Group, env: Environment)
    requires c.ok && OneGroup(c, x, g, env).ok
    ensures var c' := OneGroup(c, x, g, env);
      && c'.store.files.Keys == c.store.files.Keys + {g.name}
      && c'.writeHeader == (!HasCpu(g) && (c.writeHeader || g.name !in c.store.files))
  {
    VisitFirst(c, x, g, env);
    var v, ops := Step(c, Visit(g.name), env), Writes(x, g);
    if v.ok {
      WritesFlag(v, ops, g.name, env);
    } else {
      ExecFailed(v, ops, env);
    }
  }

  ghost predicate FlagIs(c: Call, k: Keys) {
    c.ok ==> c.writeHeader == k.writeHeader && c.store.files.Keys == k.files
  }

  lemma FlagNext(c: Call, k: Keys, x: Context, g: Group, env: Environment)
    requires FlagIs(c, k)
    ensures FlagIs(OneGroup(c, x, g, env), NextKeys(k, g))
  {
    if !c.ok {
      FailedGroup(c, x, g, env);
    } else if OneGroup(c, x, g, env).ok {
      GroupFlag(c, x, g, env);
    }
  }

  lemma FlagStep(s: Store, x: Context, groups: seq<Group>, n: nat, env: Environment)
    requires n < |groups| && FlagIs(AfterGroups(s, x, groups, n, env), KeysAfter(StartKeys(s), groups, n))
    ensures FlagIs(AfterGroups(s, x, groups, n + 1, env), KeysAfter(StartKeys(s), groups, n + 1))
  {
    NextGroup(s, x, groups, n, env);
    FlagNext(AfterGroups(s, x, groups, n, env), KeysAfter(StartKeys(s), groups, n), x, groups[n], env);
  }

  /** What the keys say about the flag, whether or not the files are well formed. */
  lemma {:induction false} FlagIsKnown(s: Store, x: Context, groups: seq<Group>, n: nat, env: Environment)
    requires n <= |groups|
    ensures FlagIs(AfterGroups(s, x, groups, n, env), KeysAfter(StartKeys(s), groups, n))
  {
    if n > 0 {
      FlagIsKnown(s, x, groups, n - 1, env);
      FlagStep(s, x, groups, n - 1, env);
    }
  }

  // ----- One group of a report

  /** The call comes to a CPU of the group with the flag set, and writes the header. */
  ghost predicate HeaderWritten(c: Call, x: Context, g: Group, env: Environment) {
    c.ok && HasCpu(g) &&
    var v := Step(c, Visit(g.name), env);
    v.ok && v.writeHeader && g.name in v.store.files && Writes(x, g) != [] && Writes(x, g)[0].Write?
    && PutHeader(v.store, g.name, Writes(x, g)[0].events, env).0
  }

  lemma HeaderNeedsFlag(c: Call, x: Context, g: Group, env: Environment)
    requires HeaderWritten(c, x, g, env)
    ensures Flag(KeysOf(c), g)
  {}

  lemma FirstWriteFails(c: Call, op: Op, env: Environment)
    requires c.ok && c.writeHeader && op.Write? && op.group in c.store.files
    requires !PutHeader(c.store, op.group, op.events, env).0
    ensures var c' := Step(c, op, env);
      !c'.ok && c'.store.files == c.store.files && c'.store.orders == c.store.orders
  {}

  /** With the flag set and the header not written, the call fails and no file changes. */
  lemma HeaderFails(c: Call, x: Context, g: Group, env: Environment)
    requires c.ok && HasCpu(g) && g.name in c.store.files && c.writeHeader && !HeaderWritten(c, x, g, env)
    ensures var c' := OneGroup(c, x, g, env);
      !c'.ok && c'.store.files == c.store.files && c'.store.orders == c.store.orders
  {
    VisitFirst(c, x, g, env);
    SplitFirst(c, Writes(x, g), env);
    FirstWriteFails(c, Writes(x, g)[0], env);
    ExecFailed(Step(c, Writes(x, g)[0], env), Writes(x, g)[1..], env);
  }

  lemma FirstWriteSucceeds(c: Call, op: Op, env: Environment)
    requires c.ok && c.writeHeader && op.Write? && op.group in c.store.files
    requires PutHeader(c.store, op.group, op.events, env).0
    ensures op.group in Step(c, op, env).store.orders
    ensures op.group in c.store.orders && Valid(c.store) ==> Broken(Step(c, op, env).store)
  {
    if op.group in c.store.orders && Valid(c.store) {
      SecondHeader(c, op.group, op.prefix, op.events, env);
    }
  }

  lemma HeaderSucceeds(c: Call, x: Context, g: Group, env: Environment)
    requires HeaderWritten(c, x, g, env)
    ensures g.name in OneGroup(c, x, g, env).store.orders
    ensures g.name in c.store.orders && Valid(c.store) ==> Broken(OneGroup(c, x, g, env).store)
  {
    VisitFirst(c, x, g, env);
    var v, ops := Step(c, Visit(g.name), env), Writes(x, g);
    SplitFirst(v, ops, env);
    FirstWriteSucceeds(v, ops[0], env);
    var first, last := Step(v, ops[0], env), OneGroup(c, x, g, env);
    ExecExtends(first, ops[1..], env);
    if g.name in c.store.orders && Valid(c.store) {
      VisitKeeps(c, g.name, env);
      BrokenStays(first.store, last.store);
    }
  }

  /** The group breaks its well-formed file exactly when its header is written a second time. */
  lemma GroupBreaksExactly(c: Call, x: Context, g: Group, env: Environment)
    requires Valid(c.store)
    ensures g.name in c.store.orders && HeaderWritten(c, x, g, env) ==> Broken(OneGroup(c, x, g, env).store)
    ensures !(g.name in c.store.orders && HeaderWritten(c, x, g, env)) ==> Valid(OneGroup(c, x, g, env).store)
  {
    if !c.ok {
      FailedGroup(c, x, g, env);
    } else if HeaderWritten(c, x, g, env) {
      HeaderSucceeds(c, x, g, env);
      if g.name !in c.store.orders {
        GroupKeeps(c, x, g, env);
      }
    } else if Leak(KeysOf(c), g) {
      HeaderFails(c, x, g, env);
      SameFilesValid(c.store, OneGroup(c, x, g, env).store);
    } else {
      GroupKeeps(c, x, g, env);
    }
  }

  lemma SameFilesValid(s: Store, s': Store)
    requires Valid(s) && s'.files == s.files && s'.orders == s.orders
    ensures Valid(s')
  {}

  // ----- A second header

  /** The k-th group of the report has its header already, and it is written again. */
  ghost predicate SecondAt(s: Store, x: Context, groups: seq<Group>, k: nat, env: Environment)
    requires k < |groups|
  {
    var c := AfterGroups(s, x, groups, k, env);
    groups[k].name in c.store.orders && HeaderWritten(c, x, groups[k], env)
  }

  ghost predicate SecondBefore(s: Store, x: Context, groups: seq<Group>, n: nat, env: Environment)
    requires n <= |groups|
  {
    exists k :: 0 <= k < n && SecondAt(s, x, groups, k, env)
  }

  lemma SecondBeforeNext(s: Store, x: Context, groups: seq<Group>, n: nat, env: Environment)
    requires n < |groups|
    ensures SecondBefore(s, x, groups, n + 1, env) <==>
      SecondBefore(s, x, groups, n, env) || SecondAt(s, x, groups, n, env)
  {}

  lemma StaysBroken(c: Call, x: Context, g: Group, env: Environment)
    requires Broken(c.store)
    ensures Broken(OneGroup(c, x, g, env).store)
  {
    ExecExtends(c, [Visit(g.name)] + Writes(x, g), env);
    BrokenStays(c.store, OneGroup(c, x, g, env).store);
  }

  ghost predicate ValidUnless(s: Store, second: bool) {
    (second ==> Broken(s)) && (!second ==> Valid(s))
  }

  lemma BreaksStep(s: Store, x: Context, groups: seq<Group>, n: nat, env: Environment)
    requires n < |groups| && ValidUnless(AfterGroups(s, x, groups, n, env).store, SecondBefore(s, x, groups, n, env))
    ensures ValidUnless(AfterGroups(s, x, groups, n + 1, env).store, SecondBefore(s, x, groups, n + 1, env))
  {
    SecondBeforeNext(s, x, groups, n, env);
    NextGroup(s, x, groups, n, env);
    var c := AfterGroups(s, x, groups, n, env);
    if SecondBefore(s, x, groups, n, env) {
      StaysBroken(c, x, groups[n], env);
    } else {
      GroupBreaksExactly(c, x, groups[n], env);
    }
  }

  lemma {:induction false} BreaksExactly(s: Store, x: Context, groups: seq<Group>, n: nat, env: Environment)
    requires n <= |groups| && Valid(s)
    ensures ValidUnless(AfterGroups(s, x, groups, n, env).store, SecondBefore(s, x, groups, n, env))
  {
    if n > 0 {
      BreaksExactly(s, x, groups, n - 1, env);
      BreaksStep(s, x, groups, n - 1, env);
    }
  }

  /** After any report, failing or not, every file is well formed exactly when no group that has
      its header got it again. */
  lemma ValidExactly(s: Store, x: Context, groups: seq<Group>, env: Environment)
    requires Valid(s)
    ensures Valid(StoreReport(s, x, groups, env).store) <==> !SecondBefore(s, x, groups, |groups|, env)
  {
    BreaksExactly(s, x, groups, |groups|, env);
    if SecondBefore(s, x, groups, |groups|, env) {
      BrokenIsNotValid(StoreReport(s, x, groups, env).store);
    }
  }

  // ----- A group without its header

  ghost predicate Headerless(s: Store, g: CString) { g in s.files && g !in s.orders }

  ghost predicate SameFor(s: Store, s': Store, g: CString) {
    && (g in s'.files <==> g in s.files) && (g in s'.orders <==> g in s.orders)
    && (g in s.files ==> s'.files[g] == s.files[g])
  }

  lemma PutsTouchOwn(s: Store, other: CString, prefix: seq<CString>, events: Events, env: Environment, g: CString)
    requires other != g && other in s.files
    ensures SameFor(s, PutHeader(s, other, events, env).1, g)
    ensures SameFor(s, PutRow(s, other, prefix, events, env).1, g)
  {}

  lemma StepTouchesOwn(c: Call, op: Op, env: Environment, g: CString)
    requires op.group != g
    ensures SameFor(c.store, Step(c, op, env).store, g)
  {
    if c.ok && op.Write? && op.group in c.store.files {
      PutsTouchOwn(c.store, op.group, op.prefix, op.events, env, g);
      PutsTouchOwn(PutHeader(c.store, op.group, op.events, env).1, op.group, op.prefix, op.events, env, g);
    }
  }

  lemma {:induction false} ExecTouchesOwn(c: Call, ops: seq<Op>, env: Environment, g: CString)
    requires forall i :: 0 <= i < |ops| ==> ops[i].group != g
    ensures SameFor(c.store, Exec(c, ops, env).store, g)
  {
    if ops != [] {
      var before := ops[..|ops| - 1];
      assert forall i :: 0 <= i < |before| ==> before[i] == ops[i];
      ExecTouchesOwn(c, before, env, g);
      StepTouchesOwn(Exec(c, before, env), ops[|ops| - 1], env, g);
    }
  }

  /** What writing a group does to a group without its header. */
  ghost predicate Stuck(c: Call, c': Call, g: CString) {
    Headerless(c.store, g) && Headerless(c'.store, g) && c'.store.files[g] == c.store.files[g]
  }

  lemma OtherGroupLeaves(c: Call, x: Context, other: Group, g: CString, env: Environment)
    requires other.name != g && Headerless(c.store, g)
    ensures Stuck(c, OneGroup(c, x, other, env), g)
  {
    VisitFirst(c, x, other, env);
    var ops := [Visit(other.name)] + Writes(x, other);
    assert WritesOf(Writes(x, other), other.name);
    assert forall i :: 0 <= i < |ops| ==> ops[i].group == other.name;
    ExecTouchesOwn(c, ops, env, g);
  }

  lemma EmptyGroupLeaves(c: Call, x: Context, g: Group, env: Environment)
    requires c.ok && !HasCpu(g) && g.name in c.store.files
    ensures OneGroup(c, x, g, env) == c
  {
    VisitFirst(c, x, g, env);
  }

  /** The header is written when the flag comes to the group; otherwise it stays without, and the
      call fails at its first CPU. */
  lemma OwnGroupIsStuck(c: Call, x: Context, g: Group, env: Environment)
    requires c.ok && Headerless(c.store, g.name)
    ensures var c' := OneGroup(c, x, g, env);
      && (HeaderWritten(c, x, g, env) ==> g.name in c'.store.orders)
      && (!HeaderWritten(c, x, g, env) ==> Stuck(c, c', g.name) && (HasCpu(g) ==> !c'.ok))
  {
    if HeaderWritten(c, x, g, env) {
      HeaderSucceeds(c, x, g, env);
    } else if !HasCpu(g) {
      EmptyGroupLeaves(c, x, g, env);
    } else if c.writeHeader {
      HeaderFails(c, x, g, env);
    } else {
      HeaderlessGroupFails(c, x, g, env);
    }
  }

  /** The report comes to the group with the flag set, and writes its header. */
  ghost predicate GivenAt(s: Store, r: Report, k: nat, g: CString, env: Environment)
    requires k < |r.groups|
  {
    r.groups[k].name == g && HeaderWritten(AfterGroups(s, r.x, r.groups, k, env), r.x, r.groups[k], env)
  }

  ghost predicate GivenBefore(s: Store, r: Report, n: nat, g: CString, env: Environment)
    requires n <= |r.groups|
  {
    exists k :: 0 <= k < n && GivenAt(s, r, k, g, env)
  }

  ghost predicate GivesHeader(s: Store, r: Report, g: CString, env: Environment) {
    GivenBefore(s, r, |r.groups|, g, env)
  }

  ghost predicate HasRowsBefore(r: Report, n: nat, g: CString)
    requires n <= |r.groups|
  {
    exists k :: 0 <= k < n && r.groups[k].name == g && HasCpu(r.groups[k])
  }

  lemma BeforeNext(s: Store, r: Report, n: nat, g: CString, env: Environment)
    requires n < |r.groups|
    ensures GivenBefore(s, r, n + 1, g, env) <==> GivenBefore(s, r, n, g, env) || GivenAt(s, r, n, g, env)
    ensures HasRowsBefore(r, n + 1, g) <==> HasRowsBefore(r, n, g) || (r.groups[n].name == g && HasCpu(r.groups[n]))
  {}

  /** The claim about a report, up to a group. */
  ghost predicate HeaderStory(s: Store, c: Call, g: CString, given: bool, rows: bool)
    requires g in s.files
  {
    && (given ==> g in c.store.orders)
    && (!given ==> Headerless(c.store, g) && c.store.files[g] == s.files[g] && (rows ==> !c.ok))
  }

  lemma StoryNext(s: Store, c: Call, r: Report, n: nat, g: CString, env: Environment)
    requires n < |r.groups| && Headerless(s, g) && c == AfterGroups(s, r.x, r.groups, n, env)
    requires HeaderStory(s, c, g, GivenBefore(s, r, n, g, env), HasRowsBefore(r, n, g))
    ensures HeaderStory(s, OneGroup(c, r.x, r.groups[n], env), g, GivenBefore(s, r, n + 1, g, env), HasRowsBefore(r, n + 1, g))
  {
    BeforeNext(s, r, n, g, env);
    var group := r.groups[n];
    if GivenBefore(s, r, n, g, env) {
      ExecExtends(c, [Visit(group.name)] + Writes(r.x, group), env);
    } else if !c.ok {
      FailedGroup(c, r.x, group, env);
    } else if group.name == g {
      OwnGroupIsStuck(c, r.x, group, env);
    } else {
      OtherGroupLeaves(c, r.x, group, g, env);
    }
  }

  lemma StoryStep(s: Store, r: Report, n: nat, g: CString, env: Environment)
    requires n < |r.groups| && Headerless(s, g)
    requires HeaderStory(s, AfterGroups(s, r.x, r.groups, n, env), g, GivenBefore(s, r, n, g, env), HasRowsBefore(r, n, g))
    ensures HeaderStory(s, AfterGroups(s, r.x, r.groups, n + 1, env), g,
                        GivenBefore(s, r, n + 1, g, env), HasRowsBefore(r, n + 1, g))
  {
    NextGroup(s, r.x, r.groups, n, env);
    StoryNext(s, AfterGroups(s, r.x, r.groups, n, env), r, n, g, env);
  }

  lemma StoryStarts(s: Store, r: Report, g: CString, env: Environment)
    requires Headerless(s, g)
    ensures HeaderStory(s, AfterGroups(s, r.x, r.groups, 0, env), g, GivenBefore(s, r, 0, g, env), HasRowsBefore(r, 0, g))
  {}

  lemma {:induction false} StoryHolds(s: Store, r: Report, n: nat, g: CString, env: Environment)
    requires n <= |r.groups| && Headerless(s, g)
    ensures HeaderStory(s, AfterGroups(s, r.x, r.groups, n, env), g, GivenBefore(s, r, n, g, env), HasRowsBefore(r, n, g))
  {
    if n == 0 {
      StoryStarts(s, r, g, env);
    } else {
      StoryHolds(s, r, n - 1, g, env);
      StoryStep(s, r, n - 1, g, env);
    }
  }

  /** One report: a group without its header gets it exactly when the flag comes to the group and
      the header is written; otherwise its file stays empty, and the report fails if it has a CPU
      of the group. */
  lemma ReportAndHeaderless(s: Store, r: Report, g: CString, env: Environment)
    requires Headerless(s, g)
    ensures var c := StoreReport(s, r.x, r.groups, env);
      && (GivesHeader(s, r, g, env) <==> g in c.store.orders)
      && (!GivesHeader(s, r, g, env) ==>
           && Headerless(c.store, g) && c.store.files[g] == s.files[g]
           && (HasRowsBefore(r, |r.groups|, g) ==> !c.ok))
  {
    StoryHolds(s, r, |r.groups|, g, env);
  }

  /** The flag comes to a CPU of the group. A caller can tell from the report and from the files
      that are open. */
  predicate FlagCarried(s: Store, r: Report, g: CString) {
    exists k :: 0 <= k < |r.groups| && r.groups[k].name == g && HasCpu(r.groups[k]) && FlagAt(s, r, k)
  }

  predicate FlagAt(s: Store, r: Report, k: nat)
    requires k < |r.groups|
  {
    Flag(KeysAfter(StartKeys(s), r.groups, k), r.groups[k])
  }

  lemma HeaderNeedsCarriedFlag(s: Store, r: Report, g: CString, env: Environment)
    requires GivesHeader(s, r, g, env)
    ensures FlagCarried(s, r, g)
  {
    var k :| 0 <= k < |r.groups| && GivenAt(s, r, k, g, env);
    HeaderNeedsFlag(AfterGroups(s, r.x, r.groups, k, env), r.x, r.groups[k], env);
    FlagIsKnown(s, r.x, r.groups, k, env);
    assert FlagAt(s, r, k);
  }

  /** When every group has a CPU the flag only ever comes to new files. */
  lemma CpusCarryNoFlag(s: Store, r: Report, g: CString)
    requires AllHaveCpus(r.groups) && Headerless(s, g) && s.orders.Keys <= s.files.Keys
    ensures !FlagCarried(s, r, g)
  {
    forall k | 0 <= k < |r.groups| && r.groups[k].name == g
      ensures !FlagAt(s, r, k)
    {
      CpusDoNotLeak(StartKeys(s), r.groups, k);
      FilesGrow(StartKeys(s), r.groups, k);
    }
  }

  lemma {:induction false} FilesGrow(k: Keys, groups: seq<Group>, n: nat)
    requires n <= |groups|
    ensures k.files <= KeysAfter(k, groups, n).files
  {
    if n > 0 {
      FilesGrow(k, groups, n - 1);
    }
  }

  // ----- Over all reports

  ghost function StoreAt(reports: seq<Report>, i: nat, env: Environment): Store
    requires i <= |reports|
  {
    Reports(reports[..i], env)
  }

  lemma StoreNext(reports: seq<Report>, i: nat, env: Environment)
    requires i < |reports|
    ensures StoreAt(reports, i + 1, env) == StoreReport(StoreAt(reports, i, env), reports[i].x, reports[i].groups, env).store
  {
    assert reports[..i + 1][..i] == reports[..i];
  }

  ghost predicate GivenIn(reports: seq<Report>, i: nat, g: CString, env: Environment)
    requires i < |reports|
  {
    GivesHeader(StoreAt(reports, i, env), reports[i], g, env)
  }

  ghost predicate ReportFails(reports: seq<Report>, i: nat, env: Environment)
    requires i < |reports|
  {
    !StoreReport(StoreAt(reports, i, env), reports[i].x, reports[i].groups, env).ok
  }

  ghost predicate GivenSince(reports: seq<Report>, start: nat, end: nat, g: CString, env: Environment)
    requires end <= |reports|
  {
    exists i :: start <= i < end && GivenIn(reports, i, g, env)
  }

  lemma GivenSinceNext(reports: seq<Report>, start: nat, end: nat, g: CString, env: Environment)
    requires start <= end < |reports|
    ensures GivenSince(reports, start, end + 1, g, env) <==> GivenSince(reports, start, end, g, env) || GivenIn(reports, end, g, env)
  {}

  lemma OrdersStay(reports: seq<Report>, i: nat, g: CString, env: Environment)
    requires i < |reports| && g in StoreAt(reports, i, env).orders
    ensures g in StoreAt(reports, i + 1, env).orders
  {
    StoreNext(reports, i, env);
    var r := reports[i];
    ExecExtends(Call(true, false, StoreAt(reports, i, env)), GroupOps(r.x, r.groups, |r.groups|), env);
  }

  /** From the report `start` to the report `end`. */
  ghost predicate UntilGiven(reports: seq<Report>, start: nat, end: nat, g: CString, env: Environment)
    requires start <= end <= |reports|
  {
    var (s, s') := (StoreAt(reports, start, env), StoreAt(reports, end, env));
    && (GivenSince(reports, start, end, g, env) ==> g in s'.orders)
    && (!GivenSince(reports, start, end, g, env) ==> g in s.files && Headerless(s', g) && s'.files[g] == s.files[g])
  }

  lemma UntilGivenStep(reports: seq<Report>, start: nat, end: nat, g: CString, env: Environment)
    requires start <= end < |reports| && Headerless(StoreAt(reports, start, env), g)
    requires UntilGiven(reports, start, end, g, env)
    ensures UntilGiven(reports, start, end + 1, g, env)
  {
    GivenSinceNext(reports, start, end, g, env);
    if GivenSince(reports, start, end, g, env) {
      OrdersStay(reports, end, g, env);
    } else {
      StoreNext(reports, end, env);
      ReportAndHeaderless(StoreAt(reports, end, env), reports[end], g, env);
    }
  }

  lemma NotGivenYet(reports: seq<Report>, start: nat, g: CString, env: Environment)
    requires start <= |reports| && Headerless(StoreAt(reports, start, env), g)
    ensures UntilGiven(reports, start, start, g, env)
  {}

  /** A group that is left without its header stays so exactly until a report carries the flag
      into it and writes the header. */
  lemma {:induction false} HeaderlessUntilGiven(reports: seq<Report>, start: nat, end: nat, g: CString, env: Environment)
    requires start <= end <= |reports| && Headerless(StoreAt(reports, start, env), g)
    ensures UntilGiven(reports, start, end, g, env)
    decreases end
  {
    if start == end {
      NotGivenYet(reports, start, g, env);
    } else {
      HeaderlessUntilGiven(reports, start, end - 1, g, env);
      UntilGivenStep(reports, start, end - 1, g, env);
    }
  }

  /** Once a group is left without its header, over every later sequence of reports: it stays so
      exactly when no report carries the flag into it and writes the header, and as long as it
      stays so its file does not change and every report with a CPU of the group fails. */
  lemma HeaderlessGroupIsStuck(reports: seq<Report>, start: nat, g: CString, env: Environment)
    requires start <= |reports| && Headerless(StoreAt(reports, start, env), g)
    ensures Headerless(StoreAt(reports, |reports|, env), g) <==> !GivenSince(reports, start, |reports|, g, env)
    ensures Headerless(StoreAt(reports, |reports|, env), g) ==>
      && StoreAt(reports, |reports|, env).files[g] == StoreAt(reports, start, env).files[g]
      && forall i :: start <= i < |reports| && HasRowsBefore(reports[i], |reports[i].groups|, g) ==> ReportFails(reports, i, env)
  {
    HeaderlessUntilGiven(reports, start, |reports|, g, env);
    if Headerless(StoreAt(reports, |reports|, env), g) {
      forall i | start <= i < |reports| && HasRowsBefore(reports[i], |reports[i].groups|, g)
        ensures ReportFails(reports, i, env)
      {
        assert !GivenIn(reports, i, g, env);
        assert !GivenSince(reports, start, i, g, env);
        HeaderlessUntilGiven(reports, start, i, g, env);
        ReportAndHeaderless(StoreAt(reports, i, env), reports[i], g, env);
      }
    }
  }

  /** In particular when all groups of all reports have CPUs, which is what the sensor sends: a
      group whose header could not be written never gets a line again. */
  lemma StuckForGood(reports: seq<Report>, start: nat, g: CString, env: Environment)
    requires start <= |reports| && Headerless(StoreAt(reports, start, env), g)
    requires forall i :: 0 <= i < |reports| ==> AllHaveCpus(reports[i].groups)
    ensures Headerless(StoreAt(reports, |reports|, env), g)
    ensures StoreAt(reports, |reports|, env).files[g] == []
  {
    forall i | start <= i < |reports|
      ensures !GivenIn(reports, i, g, env)
    {
      NeverGiven(reports, start, i, g, env);
    }
    HeaderlessGroupIsStuck(reports, start, g, env);
    WellFormedAt(reports, |reports|, env);
  }

  lemma WellFormedAt(reports: seq<Report>, i: nat, env: Environment)
    requires i <= |reports| && forall j :: 0 <= j < |reports| ==> AllHaveCpus(reports[j].groups)
    ensures Valid(StoreAt(reports, i, env))
  {
    FilesStayWellFormed(reports[..i], env);
  }

  lemma {:induction false} NeverGiven(reports: seq<Report>, start: nat, i: nat, g: CString, env: Environment)
    requires start <= i < |reports| && Headerless(StoreAt(reports, start, env), g)
    requires forall j :: 0 <= j < |reports| ==> AllHaveCpus(reports[j].groups)
    ensures !GivenIn(reports, i, g, env)
    decreases i
  {
    forall j | start <= j < i
      ensures !GivenIn(reports, j, g, env)
    {
      NeverGiven(reports, start, j, g, env);
    }
    HeaderlessUntilGiven(reports, start, i, g, env);
    WellFormedAt(reports, i, env);
    CpusCarryNoFlag(StoreAt(reports, i, env), reports[i], g);
    if GivenIn(reports, i, g, env) {
      HeaderNeedsCarriedFlag(StoreAt(reports, i, env), reports[i], g, env);
    }
  }

  // ----- Runs that show it

  /** A group with one CPU that has these events. */
  predicate OneCpu(g: Group, events: Events) {
    |g.pkgs| == 1 && |g.pkgs[0].cpus| == 1 && g.pkgs[0].cpus[0].events == events
  }

  function PrefixOf(x: Context, g: Group): seq<CString>
    requires |g.pkgs| == 1 && |g.pkgs[0].cpus| == 1
  {
    RowPrefixFields(x.sensor, x.timestamp, x.target, g.pkgs[0].id, g.pkgs[0].cpus[0].id)
  }

  ghost predicate LinesFit(prefix: seq<CString>, events: Events)
    requires prefix != []
  {
    var order := HeaderOrder(events.Keys);
    && HasAll(order, events)
    && |HeaderLine(order)| < CSV_LINE_BUFFER_SIZE && |RowLine(prefix, order, events)| < CSV_LINE_BUFFER_SIZE
  }

  lemma OneWrite(x: Context, g: Group)
    requires |g.pkgs| == 1 && |g.pkgs[0].cpus| == 1
    ensures Writes(x, g) == [Write(g.name, PrefixOf(x, g), g.pkgs[0].cpus[0].events)] && HasCpu(g)
  {
    var pkg := g.pkgs[0];
    assert g.pkgs == [pkg];
    assert PkgOps(x, g.name, g.pkgs, 0) == [] && CpuOps(x, g.name, pkg, 0) == [];
    assert CpuOps(x, g.name, pkg, 1) == [WriteOf(x, g.name, pkg.id, pkg.cpus[0])];
  }

  lemma FlaggedWrite(c: Call, g: CString, prefix: seq<CString>, events: Events, env: Environment)
    requires c.ok && c.writeHeader && g in c.store.files && prefix != [] && LinesFit(prefix, events)
    requires g in c.store.orders ==> c.store.orders[g] == HeaderOrder(events.Keys)
    requires forall k :: env(k)
    ensures var c' := Step(c, Write(g, prefix, events), env);
      c'.ok && g in c'.store.orders && c'.store.orders[g] == HeaderOrder(events.Keys)
  {}

  /** A group whose CPU finds the flag set is written when nothing fails. */
  lemma FlaggedGroup(c: Call, x: Context, g: Group, events: Events, env: Environment)
    requires c.ok && OneCpu(g, events) && LinesFit(PrefixOf(x, g), events) && forall k :: env(k)
    requires Flag(KeysOf(c), g) && (g.name in c.store.orders ==> c.store.orders[g.name] == HeaderOrder(events.Keys))
    ensures var c' := OneGroup(c, x, g, env);
      c'.ok && g.name in c'.store.orders && c'.store.orders[g.name] == HeaderOrder(events.Keys)
  {
    VisitFirst(c, x, g, env);
    OneWrite(x, g);
    var v := Step(c, Visit(g.name), env);
    ExecOne(v, Writes(x, g)[0], env);
    FlaggedWrite(v, g.name, PrefixOf(x, g), events, env);
  }

  /** The file of a group without CPUs is opened and the flag stays set. */
  lemma EmptyGroupOpens(c: Call, x: Context, g: Group, env: Environment)
    requires c.ok && g.name !in c.store.files && g.pkgs == [] && env(c.store.clock)
    ensures OneGroup(c, x, g, env) ==
      Call(true, true, c.store.(files := c.store.files[g.name := []], clock := c.store.clock + 1))
  {
    VisitFirst(c, x, g, env);
    assert Writes(x, g) == [];
  }

  lemma OneGroupReport(s: Store, x: Context, g: Group, env: Environment)
    ensures StoreReport(s, x, [g], env) == OneGroup(Call(true, false, s), x, g, env)
  {
    NextGroup(s, x, [g], 0, env);
  }

  lemma TwoGroupReport(s: Store, x: Context, a: Group, b: Group, env: Environment)
    ensures StoreReport(s, x, [a, b], env) == OneGroup(OneGroup(Call(true, false, s), x, a, env), x, b, env)
  {
    NextGroup(s, x, [a, b], 0, env);
    NextGroup(s, x, [a, b], 1, env);
  }

  /** A report of a new group without CPUs and then of a known group gives the known file a
      second header, although every open and every write succeeds. */
  lemma EmptyThenKnown(s: Store, x: Context, a: Group, b: Group, events: Events, env: Environment)
    requires Valid(s) && forall k :: env(k)
    requires a.pkgs == [] && a.name !in s.files
    requires OneCpu(b, events) && LinesFit(PrefixOf(x, b), events)
    requires b.name in s.orders && s.orders[b.name] == HeaderOrder(events.Keys)
    ensures StoreReport(s, x, [a, b], env).ok && !Valid(StoreReport(s, x, [a, b], env).store)
  {
    var start := Call(true, false, s);
    TwoGroupReport(s, x, a, b, env);
    EmptyGroupOpens(start, x, a, env);
    GroupKeeps(start, x, a, env);
    var c := OneGroup(start, x, a, env);
    FlaggedGroup(c, x, b, events, env);
    OneWrite(x, b);
    GroupBreaks(c, x, b, env);
    BrokenIsNotValid(OneGroup(c, x, b, env).store);
  }

  lemma OneReport(r: Report, env: Environment)
    ensures Reports([r], env) == StoreReport(Store(map[], map[], 0), r.x, r.groups, env).store
  {
    assert [r][..0] == [];
  }

  /** Two reports that break a file although nothing fails, starting from nothing. The function
      allows them; the sensor does not send the second one. */
  lemma EmptyGroupBreaksFile() returns (first: Report, second: Report, env: Environment)
    ensures AllHaveCpus(first.groups)
    ensures StoreReport(Reports([], env), first.x, first.groups, env).ok
    ensures StoreReport(Reports([first], env), second.x, second.groups, env).ok
    ensures Valid(Reports([first], env)) && !Valid(Reports([first, second], env))
  {
    env := _ => true;
    var x, events := SmallContext(), SmallEvents();
    var a, b := Group("a", []), SmallGroup();
    first, second := Report(x, [b]), Report(x, [a, b]);
    var start := Call(true, false, Store(map[], map[], 0));
    SmallLinesFit();
    OneGroupReport(start.store, x, b, env);
    FlaggedGroup(start, x, b, events, env);
    OneWrite(x, b);
    OneReport(first, env);
    FilesStayWellFormed([first], env);
    OnlyOpened(x, b, env);
    EmptyThenKnown(Reports([first], env), x, a, b, events, env);
    assert [first, second][..1] == [first];
  }

  function SmallContext(): Context { Context("s", 0, "t") }

  function SmallEvents(): Events { map["e" := 0] }

  function SmallGroup(): Group { Group("b", [Pkg("0", [Cpu("0", SmallEvents())])]) }

  lemma OnlyOpened(x: Context, g: Group, env: Environment)
    ensures OneGroup(Call(true, false, Store(map[], map[], 0)), x, g, env).store.files.Keys <= {g.name}
  {
    var start := Call(true, false, Store(map[], map[], 0));
    VisitFirst(start, x, g, env);
    var v := Step(start, Visit(g.name), env);
    if v.ok {
      WritesFlag(v, Writes(x, g), g.name, env);
    } else {
      ExecFailed(v, Writes(x, g), env);
    }
  }

  lemma SmallLinesFit()
    ensures LinesFit(PrefixOf(SmallContext(), SmallGroup()), SmallEvents())
  {
    var order, f: seq<CString> := ["e"], PrefixOf(SmallContext(), SmallGroup());
    assert IsOrder(order, SmallEvents().Keys);
    OrderUnique(order, HeaderOrder(SmallEvents().Keys), SmallEvents().Keys);
    StaticHeader();
    JoinAppend(StaticFields(), "e", ',');
    assert Values(order, SmallEvents()) == [Decimals(0)];
    ShortFields(f + [Decimals(0)], ',');
  }

  lemma {:induction false} ShortFields(f: seq<CString>, sep: char)
    requires f != [] && forall i :: 0 <= i < |f| ==> |f[i]| <= 1
    ensures |Join(f, sep)| < 2 * |f|
  {
    if |f| > 1 {
      ShortFields(f[1..], sep);
    }
  }

  /** A report whose header cannot be written leaves its group without one. */
  lemma HeaderCanFail() returns (r: Report, env: Environment)
    ensures AllHaveCpus(r.groups) && |r.groups| == 1 && Headerless(Reports([r], env), r.groups[0].name)
  {
    env := k => k != 1;
    var x, b := SmallContext(), SmallGroup();
    r := Report(x, [b]);
    var start := Call(true, false, Store(map[], map[], 0));
    OneReport(r, env);
    OneGroupReport(start.store, x, b, env);
    OneWrite(x, b);
    SecondCallRefused(start, x, b, env);
  }

  lemma SecondCallRefused(c: Call, x: Context, g: Group, env: Environment)
    requires c.ok && c.store == Store(map[], map[], 0) && env(0) && !env(1) && HasCpu(g)
    ensures Headerless(OneGroup(c, x, g, env).store, g.name)
  {
    VisitFirst(c, x, g, env);
    var v := Step(c, Visit(g.name), env);
    FirstOpRefused(v, Writes(x, g), g.name, env);
  }

  /** The header of a file that was just opened cannot be written. */
  lemma FirstOpRefused(v: Call, ops: seq<Op>, g: CString, env: Environment)
    requires v.ok && v.writeHeader && v.store.files == map[g := []] && v.store.orders == map[] && !env(v.store.clock)
    requires ops != [] && WritesOf(ops, g)
    ensures Headerless(Exec(v, ops, env).store, g)
  {
    FirstWriteFails(v, ops[0], env);
    FirstOpFails(v, ops, Step(v, ops[0], env), env);
  }

  lemma FirstOpFails(c: Call, ops: seq<Op>, first: Call, env: Environment)
    requires ops != [] && first == Step(c, ops[0], env) && !first.ok
    ensures Exec(c, ops, env) == first
  {
    SplitFirst(c, ops, env);
    ExecFailed(first, ops[1..], env);
  }
}
