/** One tick of a monitoring actor in src/perf.c: which CPUs are monitored, how their counters
    become a payload, and who owns the containers of that payload. */
module Sampling {
  import opened Text
  import opened Payloads
  import CsvStore
  import CsvFiles
  import CsvRows

  datatype MonitoringType = AllCpus | OneCpu

  /** An events group as it is configured, and a package as it was detected. */
  datatype EventsGroup = EventsGroup(name: CString, kind: MonitoringType, events: seq<CString>)

  datatype Package = Package(id: CString, cpus: seq<CString>)

  /** A group as it is monitored: its events, and the CPUs they are open on. */
  datatype GroupContext = GroupContext(name: CString, events: seq<CString>, pkgs: seq<Package>)

  // ----- Setting the groups up

  function MonitoredCpus(kind: MonitoringType, cpus: seq<CString>): seq<CString> {
    if kind.OneCpu? && |cpus| > 1 then cpus[..1] else cpus
  }

  function Monitored(g: EventsGroup, hwinfo: seq<Package>): GroupContext {
    GroupContext(g.name, g.events,
      seq(|hwinfo|, i requires 0 <= i < |hwinfo| => Package(hwinfo[i].id, MonitoredCpus(g.kind, hwinfo[i].cpus))))
  }

  function SetUp(groups: seq<EventsGroup>, hwinfo: seq<Package>): seq<GroupContext> {
    seq(|groups|, i requires 0 <= i < |groups| => Monitored(groups[i], hwinfo))
  }

  /** These CPUs of a package are monitored: all of them in order, or only the first one. */
  ghost predicate Chosen(kind: MonitoringType, cpus: seq<CString>, chosen: seq<CString>) {
    match kind
    case AllCpus => chosen == cpus
    case OneCpu => if cpus == [] then chosen == [] else chosen == [cpus[0]]
  }

  /** Each group is monitored with its events on every package, on the CPUs that its type says. */
  ghost predicate IsSetUp(groups: seq<EventsGroup>, hwinfo: seq<Package>, contexts: seq<GroupContext>) {
    && |contexts| == |groups|
    && forall g :: 0 <= g < |groups| ==>
         && contexts[g].name == groups[g].name && contexts[g].events == groups[g].events
         && |contexts[g].pkgs| == |hwinfo|
         && forall p :: 0 <= p < |hwinfo| ==>
              contexts[g].pkgs[p].id == hwinfo[p].id && Chosen(groups[g].kind, hwinfo[p].cpus, contexts[g].pkgs[p].cpus)
  }

  lemma SetUpIs(groups: seq<EventsGroup>, hwinfo: seq<Package>)
    ensures IsSetUp(groups, hwinfo, SetUp(groups, hwinfo))
  {}

  /** perf_events_groups_initialize; `opens` says for each CPU, in order, whether its events can be
      ok. */
  method Initialize(groups: seq<EventsGroup>, hwinfo: seq<Package>, opens: nat -> bool)
    returns (ret: int, contexts: seq<GroupContext>)
    ensures ret == 0 || ret == -1
    ensures ret == 0 ==> contexts == SetUp(groups, hwinfo) && IsSetUp(groups, hwinfo, contexts)
    ensures ret == 0 <==> AllOpen(opens, ReadsBefore(SetUp(groups, hwinfo), |groups|))
  {
    ret, contexts := InitializeGroups(groups, hwinfo, opens, SetUp(groups, hwinfo));
    SetUpIs(groups, hwinfo);
  }

  /** The group loop. */
  method InitializeGroups(groups: seq<EventsGroup>, hwinfo: seq<Package>, opens: nat -> bool, ghost all: seq<GroupContext>)
    returns (ret: int, contexts: seq<GroupContext>)
    requires |all| == |groups| && forall i :: 0 <= i < |groups| ==> all[i] == Monitored(groups[i], hwinfo)
    ensures ret == 0 || ret == -1
    ensures ret == 0 ==> contexts == all
    ensures ret == 0 <==> AllOpen(opens, ReadsBefore(all, |all|))
  {
    contexts := [];
    var g, k := 0, 0;
    while g < |groups|
      invariant g <= |groups| && contexts == all[..g]
      invariant k == ReadsBefore(all, g) && AllOpen(opens, k)
    {
      var ok, context := InitializeGroup(groups[g], hwinfo, opens, k);
      NextReads(all, g);
      if !ok {
        return -1, contexts;
      }
      k := k + CpusBefore(context.pkgs, |context.pkgs|);
      contexts := contexts + [context];
      g := g + 1;
    }
    UpTo(all, contexts);
    ret := 0;
  }

  lemma UpTo<T>(xs: seq<T>, ys: seq<T>)
    requires ys == xs[..|xs|]
    ensures ys == xs
  {}

  lemma NextReads(contexts: seq<GroupContext>, g: nat)
    requires g < |contexts|
    ensures ReadsBefore(contexts, g) + CpusBefore(contexts[g].pkgs, |contexts[g].pkgs|) == ReadsBefore(contexts, g + 1)
    ensures ReadsBefore(contexts, g + 1) <= ReadsBefore(contexts, |contexts|)
  {
    ReadsGrow(contexts, g + 1, |contexts|);
  }

  /** The package loop: one group, whose first CPU is number `k`. */
  method InitializeGroup(g: EventsGroup, hwinfo: seq<Package>, opens: nat -> bool, k: nat)
    returns (ok: bool, context: GroupContext)
    requires AllOpen(opens, k)
    ensures ok ==> context == Monitored(g, hwinfo)
    ensures ok <==> AllOpen(opens, k + CpusBefore(Monitored(g, hwinfo).pkgs, |hwinfo|))
  {
    ghost var all := Monitored(g, hwinfo).pkgs;
    context := GroupContext(g.name, g.events, []);
    var n, p := k, 0;
    while p < |hwinfo|
      invariant p <= |hwinfo| && context == GroupContext(g.name, g.events, all[..p])
      invariant n == k + CpusBefore(all, p) && AllOpen(opens, n)
    {
      var cpus: seq<CString>;
      ok, cpus := InitializePkg(g.kind, hwinfo[p].cpus, opens, n);
      CpusGrow(all, p + 1, |hwinfo|);
      if !ok {
        return;
      }
      n := n + |cpus|;
      context := context.(pkgs := context.pkgs + [Package(hwinfo[p].id, cpus)]);
      p := p + 1;
    }
    assert all[..p] == all;
    ok := true;
  }

  /** The CPU loop, which stops after the first one for one CPU per socket. */
  method InitializePkg(kind: MonitoringType, ids: seq<CString>, opens: nat -> bool, k: nat)
    returns (ok: bool, cpus: seq<CString>)
    requires AllOpen(opens, k)
    ensures ok ==> cpus == MonitoredCpus(kind, ids)
    ensures ok <==> AllOpen(opens, k + |MonitoredCpus(kind, ids)|)
  {
    cpus := [];
    var c := 0;
    while c < |ids|
      invariant c <= |ids| && cpus == ids[..c] && AllOpen(opens, k + c)
      invariant c > 0 ==> kind.AllCpus?
    {
      if !opens(k + c) {
        return false, cpus;
      }
      cpus := cpus + [ids[c]];
      c := c + 1;
      if kind.OneCpu? {
        break;
      }
    }
    assert cpus == MonitoredCpus(kind, ids);
    ok := true;
  }

  ghost predicate AllOpen(opens: nat -> bool, n: nat) { forall i: nat :: i < n ==> opens(i) }

  lemma {:induction false} CpusGrow(pkgs: seq<Package>, i: nat, n: nat)
    requires i <= n <= |pkgs|
    ensures CpusBefore(pkgs, i) <= CpusBefore(pkgs, n)
  {
    if i < n {
      CpusGrow(pkgs, i, n - 1);
    }
  }

  lemma {:induction false} ReadsGrow(contexts: seq<GroupContext>, i: nat, n: nat)
    requires i <= n <= |contexts|
    ensures ReadsBefore(contexts, i) <= ReadsBefore(contexts, n)
  {
    if i < n {
      ReadsGrow(contexts, i, n - 1);
    }
  }

  // ----- Filing the values of a CPU

  /** What a read of a group of counters returns: the times and one value per event. */
  datatype ReadFormat = ReadFormat(timeEnabled: U64, timeRunning: U64, values: seq<U64>)

  /** An insertion into a table leaves an entry that is already there. */
  function Insert(m: Events, key: CString, value: U64): Events {
    if key in m then m else m[key := value]
  }

  /** The table after the first `n` events are stored. */
  function Filed(events: seq<CString>, r: ReadFormat, n: nat): Events
    requires n <= |events| == |r.values|
  {
    if n == 0 then Insert(Insert(map[], "time_enabled", r.timeEnabled), "time_running", r.timeRunning)
    else Insert(Filed(events, r, n - 1), events[n - 1], r.values[n - 1])
  }

  predicate IsTimeName(name: CString) { name == "time_enabled" || name == "time_running" }

  /** Event `i` is the first with its name, and its name is not that of a time. */
  ghost predicate FirstOfItsName(events: seq<CString>, i: nat)
    requires i < |events|
  {
    !IsTimeName(events[i]) && forall j :: 0 <= j < i ==> events[j] != events[i]
  }

  lemma {:induction false} FiledKeys(events: seq<CString>, r: ReadFormat, n: nat)
    requires n <= |events| == |r.values|
    ensures forall x :: x in Filed(events, r, n) <==> IsTimeName(x) || x in events[..n]
  {
    if n > 0 {
      FiledKeys(events, r, n - 1);
      assert events[..n] == events[..n - 1] + [events[n - 1]];
    }
  }

  lemma {:induction false} FiledFirst(events: seq<CString>, r: ReadFormat, n: nat, i: nat)
    requires i < n <= |events| == |r.values| && FirstOfItsName(events, i)
    ensures events[i] in Filed(events, r, n) && Filed(events, r, n)[events[i]] == r.values[i]
  {
    FiledKeys(events, r, n - 1);
    if i < n - 1 {
      FiledFirst(events, r, n - 1, i);
    } else {
      assert events[i] !in events[..i];
    }
  }

  lemma {:induction false} FiledStays(events: seq<CString>, r: ReadFormat, n: nat, m: nat, x: CString)
    requires n <= m <= |events| == |r.values| && x in Filed(events, r, n)
    ensures x in Filed(events, r, m) && Filed(events, r, m)[x] == Filed(events, r, n)[x]
  {
    if n < m {
      FiledStays(events, r, n, m - 1, x);
    }
  }

  /** Value i is filed under event i, whatever the values are, exactly when no earlier event and
      no time has that name. */
  lemma ValueUnderItsEvent(events: seq<CString>, i: nat)
    requires i < |events|
    ensures FirstOfItsName(events, i) <==>
      forall r: ReadFormat :: |r.values| == |events| ==>
        events[i] in Filed(events, r, |events|) && Filed(events, r, |events|)[events[i]] == r.values[i]
  {
    if FirstOfItsName(events, i) {
      forall r: ReadFormat | |r.values| == |events|
        ensures events[i] in Filed(events, r, |events|) && Filed(events, r, |events|)[events[i]] == r.values[i]
      {
        FiledFirst(events, r, |events|, i);
      }
    } else {
      var r := Misfiled(events, i);
    }
  }

  /** What the table of a CPU shows of a read: the two times under their names, each value under the
      name of its event unless an earlier event or a time has that name, and nothing else. */
  ghost predicate ShowsRead(events: seq<CString>, r: ReadFormat, m: Events) {
    && |events| == |r.values|
    && (forall x :: x in m <==> x == "time_enabled" || x == "time_running" || x in events)
    && m["time_enabled"] == r.timeEnabled
    && m["time_running"] == r.timeRunning
    && forall i :: 0 <= i < |events| && FirstOfItsName(events, i) ==> m[events[i]] == r.values[i]
  }

  /** Both times are filed under their own names, whatever the events are called. */
  lemma TimesFiled(events: seq<CString>, r: ReadFormat)
    requires |events| == |r.values|
    ensures var m := Filed(events, r, |events|);
      "time_enabled" in m && m["time_enabled"] == r.timeEnabled && "time_running" in m && m["time_running"] == r.timeRunning
  {
    var first := Filed(events, r, 0);
    assert first["time_enabled"] == r.timeEnabled && first["time_running"] == r.timeRunning;
    FiledStays(events, r, 0, |events|, "time_enabled");
    FiledStays(events, r, 0, |events|, "time_running");
  }

  lemma AllKeys(events: seq<CString>, r: ReadFormat)
    requires |events| == |r.values|
    ensures forall x :: x in Filed(events, r, |events|) <==> x == "time_enabled" || x == "time_running" || x in events
  {
    FiledKeys(events, r, |events|);
    assert events[..|events|] == events;
  }

  lemma AllFirst(events: seq<CString>, r: ReadFormat, m: Events)
    requires |events| == |r.values| && m == Filed(events, r, |events|)
    ensures forall i :: 0 <= i < |events| && FirstOfItsName(events, i) ==> events[i] in m && m[events[i]] == r.values[i]
  {
    forall i | 0 <= i < |events| && FirstOfItsName(events, i)
      ensures events[i] in m && m[events[i]] == r.values[i]
    {
      FiledFirst(events, r, |events|, i);
    }
  }

  lemma FiledShows(events: seq<CString>, r: ReadFormat, m: Events)
    requires |events| == |r.values| && m == Filed(events, r, |events|)
    ensures ShowsRead(events, r, m)
  {
    AllKeys(events, r);
    TimesFiled(events, r);
    AllFirst(events, r, m);
  }

  lemma ShownOnce(events: seq<CString>, r: ReadFormat, a: Events, b: Events, x: CString)
    requires ShowsRead(events, r, a) && ShowsRead(events, r, b) && x in a
    ensures x in b && a[x] == b[x]
  {
    if !IsTimeName(x) {
      var i :| 0 <= i < |events| && events[i] == x;
      var j := FirstWithName(events, i);
    }
  }

  /** The table filed is the only one that shows a read. */
  lemma FiledExactly(events: seq<CString>, r: ReadFormat, m: Events)
    requires |events| == |r.values|
    ensures m == Filed(events, r, |events|) <==> ShowsRead(events, r, m)
  {
    var filed := Filed(events, r, |events|);
    FiledShows(events, r, filed);
    if ShowsRead(events, r, m) {
      forall x | x in m
        ensures x in filed && m[x] == filed[x]
      {
        ShownOnce(events, r, m, filed, x);
      }
      assert m.Keys == filed.Keys;
    }
  }

  /** Otherwise some read shows another value there. */
  lemma Misfiled(events: seq<CString>, i: nat) returns (r: ReadFormat)
    requires i < |events| && !FirstOfItsName(events, i)
    ensures |r.values| == |events|
    ensures events[i] in Filed(events, r, |events|) && Filed(events, r, |events|)[events[i]] != r.values[i]
  {
    r := ReadFormat(0, 0, seq(|events|, k => if k == i then 1 else 0));
    if IsTimeName(events[i]) {
      FiledStays(events, r, 0, |events|, events[i]);
    } else {
      var j := FirstWithName(events, i);
      FiledFirst(events, r, |events|, j);
    }
  }

  lemma FirstWithName(events: seq<CString>, i: nat) returns (j: nat)
    requires i < |events| && !IsTimeName(events[i])
    ensures j <= i && events[j] == events[i] && FirstOfItsName(events, j)
  {
    j := 0;
    while events[j] != events[i]
      invariant j <= i && forall k :: 0 <= k < j ==> events[k] != events[i]
      decreases i - j
    {
      j := j + 1;
    }
  }

  // ----- Reading the counters

  /** The k-th read returns this many values, and the k-th reset succeeds or not. */
  datatype Perf = Perf(read: nat -> Option<ReadFormat>, reset: nat -> bool)

  /** perf_events_group_read_cpu: a group without events has no leader, a read that is short or
      fails is an error, and so is a reset that fails. */
  function ReadCpu(perf: Perf, k: nat, events: seq<CString>): (r: Option<ReadFormat>)
    ensures r.Some? ==> |r.value.values| == |events| > 0
  {
    if events == [] then None
    else
      match perf.read(k)
      case None => None
      case Some(r) => if |r.values| == |events| && perf.reset(k) then Some(r) else None
  }

  /** The data of the first `n` CPUs of a package, whose reads are numbered from `k`. */
  function CpusData(perf: Perf, k: nat, events: seq<CString>, cpus: seq<CString>, n: nat): (r: Option<seq<Cpu>>)
    requires n <= |cpus|
    ensures r.Some? ==> |r.value| == n
  {
    if n == 0 then Some([])
    else
      match (CpusData(perf, k, events, cpus, n - 1), ReadCpu(perf, k + n - 1, events))
      case (Some(before), Some(r)) => Some(before + [Cpu(cpus[n - 1], Filed(events, r, |events|))])
      case _ => None
  }

  function CpusBefore(pkgs: seq<Package>, n: nat): nat
    requires n <= |pkgs|
  {
    if n == 0 then 0 else CpusBefore(pkgs, n - 1) + |pkgs[n - 1].cpus|
  }

  function PkgsData(perf: Perf, k: nat, events: seq<CString>, pkgs: seq<Package>, n: nat): (r: Option<seq<Pkg>>)
    requires n <= |pkgs|
    ensures r.Some? ==> |r.value| == n
  {
    if n == 0 then Some([])
    else
      var p := pkgs[n - 1];
      match (PkgsData(perf, k, events, pkgs, n - 1),
             CpusData(perf, k + CpusBefore(pkgs, n - 1), events, p.cpus, |p.cpus|))
      case (Some(before), Some(cpus)) => Some(before + [Pkg(p.id, cpus)])
      case _ => None
  }

  function ReadsBefore(contexts: seq<GroupContext>, n: nat): nat
    requires n <= |contexts|
  {
    if n == 0 then 0 else ReadsBefore(contexts, n - 1) + CpusBefore(contexts[n - 1].pkgs, |contexts[n - 1].pkgs|)
  }

  function GroupsData(perf: Perf, k: nat, contexts: seq<GroupContext>, n: nat): (r: Option<seq<Group>>)
    requires n <= |contexts|
    ensures r.Some? ==> |r.value| == n
  {
    if n == 0 then Some([])
    else
      var g := contexts[n - 1];
      match (GroupsData(perf, k, contexts, n - 1),
             PkgsData(perf, k + ReadsBefore(contexts, n - 1), g.events, g.pkgs, |g.pkgs|))
      case (Some(before), Some(pkgs)) => Some(before + [Group(g.name, pkgs)])
      case _ => None
  }

  // ----- The shape of a payload

  lemma SnocInjective<T>(a: seq<T>, x: T, b: seq<T>, y: T)
    ensures a + [x] == b + [y] <==> a == b && x == y
  {
    if a + [x] == b + [y] {
      assert a == (a + [x])[..|a + [x]| - 1] && b == (b + [y])[..|b + [y]| - 1];
      assert x == (a + [x])[|a|] && y == (b + [y])[|b|];
    }
  }

  /** CPU data that shows read number k, which returned a value for each event and was followed by
      a successful reset. */
  ghost predicate CpuIs(perf: Perf, k: nat, events: seq<CString>, id: CString, cpu: Cpu) {
    && events != [] && perf.read(k).Some? && perf.reset(k)
    && cpu.id == id && ShowsRead(events, perf.read(k).value, cpu.events)
  }

  lemma CpuIsFiled(perf: Perf, k: nat, events: seq<CString>, id: CString, cpu: Cpu)
    ensures CpuIs(perf, k, events, id, cpu) <==>
      var read := ReadCpu(perf, k, events); read.Some? && cpu == Cpu(id, Filed(events, read.value, |events|))
  {
    var read := ReadCpu(perf, k, events);
    if read.Some? {
      FiledExactly(events, read.value, cpu.events);
    }
  }

  ghost predicate CpusAre(perf: Perf, k: nat, events: seq<CString>, ids: seq<CString>, n: nat, cpus: seq<Cpu>)
    requires n <= |ids|
  {
    |cpus| == n && forall c {:trigger cpus[c]} :: 0 <= c < n ==> CpuIs(perf, k + c, events, ids[c], cpus[c])
  }

  /** Package data whose CPUs are read from number k on. */
  ghost predicate PkgIs(perf: Perf, k: nat, events: seq<CString>, p: Package, pkg: Pkg) {
    pkg.id == p.id && CpusAre(perf, k, events, p.cpus, |p.cpus|, pkg.cpus)
  }

  ghost predicate PkgsAre(perf: Perf, k: nat, events: seq<CString>, ps: seq<Package>, n: nat, pkgs: seq<Pkg>)
    requires n <= |ps|
  {
    |pkgs| == n && forall p {:trigger pkgs[p]} :: 0 <= p < n ==> PkgIs(perf, k + CpusBefore(ps, p), events, ps[p], pkgs[p])
  }

  ghost predicate GroupIs(perf: Perf, k: nat, context: GroupContext, group: Group) {
    group.name == context.name && PkgsAre(perf, k, context.events, context.pkgs, |context.pkgs|, group.pkgs)
  }

  ghost predicate GroupsAre(perf: Perf, k: nat, contexts: seq<GroupContext>, n: nat, groups: seq<Group>)
    requires n <= |contexts|
  {
    |groups| == n && forall g {:trigger groups[g]} :: 0 <= g < n ==> GroupIs(perf, k + ReadsBefore(contexts, g), contexts[g], groups[g])
  }

  lemma CpusAreNext(perf: Perf, k: nat, events: seq<CString>, ids: seq<CString>, n: nat, cpus: seq<Cpu>)
    requires 0 < n <= |ids| && |cpus| == n
    ensures CpusAre(perf, k, events, ids, n, cpus) <==>
      CpusAre(perf, k, events, ids, n - 1, cpus[..n - 1]) && CpuIs(perf, k + (n - 1), events, ids[n - 1], cpus[n - 1])
  {
    assert forall c :: 0 <= c < n - 1 ==> cpus[..n - 1][c] == cpus[c];
  }

  lemma CpusDataNext(perf: Perf, k: nat, events: seq<CString>, ids: seq<CString>, n: nat, cpus: seq<Cpu>, k': nat, id: CString, cpu: Cpu)
    requires 0 < n <= |ids| && |cpus| == n && k' == k + n - 1 && id == ids[n - 1] && cpu == cpus[n - 1]
    ensures CpusData(perf, k, events, ids, n) == Some(cpus) <==>
      CpusData(perf, k, events, ids, n - 1) == Some(cpus[..n - 1]) && CpuIs(perf, k', events, id, cpu)
  {
    OneMoreRead(perf, k, events, ids, n, cpus, k');
    CpuIsFiled(perf, k', events, id, cpu);
  }

  lemma OneMoreRead(perf: Perf, k: nat, events: seq<CString>, ids: seq<CString>, n: nat, cpus: seq<Cpu>, k': nat)
    requires 0 < n <= |ids| && |cpus| == n && k' == k + n - 1
    ensures CpusData(perf, k, events, ids, n) == Some(cpus) <==>
      && CpusData(perf, k, events, ids, n - 1) == Some(cpus[..n - 1])
      && var read := ReadCpu(perf, k', events); read.Some? && cpus[n - 1] == Cpu(ids[n - 1], Filed(events, read.value, |events|))
  {
    var before, read := CpusData(perf, k, events, ids, n - 1), ReadCpu(perf, k', events);
    var cpu := if read.Some? then Some(Cpu(ids[n - 1], Filed(events, read.value, |events|))) else None;
    SomeSnoc(before, cpu, cpus);
  }

  /** A list is one element more than another exactly when its parts are. */
  lemma SomeSnoc<T>(before: Option<seq<T>>, x: Option<T>, xs: seq<T>)
    requires xs != []
    ensures before.Some? && x.Some? ==>
      (before.value + [x.value] == xs <==> before.value == xs[..|xs| - 1] && x.value == xs[|xs| - 1])
  {
    assert xs == xs[..|xs| - 1] + [xs[|xs| - 1]];
    if before.Some? && x.Some? {
      SnocInjective(before.value, x.value, xs[..|xs| - 1], xs[|xs| - 1]);
    }
  }

  /** The data of the CPUs of a package are there exactly when every read and reset succeeds, and
      each is filed from the read made for it. */
  lemma {:induction false} CpusExactly(perf: Perf, k: nat, events: seq<CString>, ids: seq<CString>, n: nat, cpus: seq<Cpu>)
    requires n <= |ids|
    ensures CpusData(perf, k, events, ids, n) == Some(cpus) <==> CpusAre(perf, k, events, ids, n, cpus)
  {
    if n > 0 && |cpus| == n {
      CpusExactly(perf, k, events, ids, n - 1, cpus[..n - 1]);
      CpusDataNext(perf, k, events, ids, n, cpus, k + (n - 1), ids[n - 1], cpus[n - 1]);
      CpusAreNext(perf, k, events, ids, n, cpus);
    }
  }

  lemma PkgsAreNext(perf: Perf, k: nat, events: seq<CString>, ps: seq<Package>, n: nat, pkgs: seq<Pkg>)
    requires 0 < n <= |ps| && |pkgs| == n
    ensures PkgsAre(perf, k, events, ps, n, pkgs) <==>
      PkgsAre(perf, k, events, ps, n - 1, pkgs[..n - 1]) && PkgIs(perf, k + CpusBefore(ps, n - 1), events, ps[n - 1], pkgs[n - 1])
  {
    assert forall p :: 0 <= p < n - 1 ==> pkgs[..n - 1][p] == pkgs[p];
  }

  lemma PkgsDataNext(perf: Perf, k: nat, events: seq<CString>, ps: seq<Package>, n: nat, pkgs: seq<Pkg>)
    requires 0 < n <= |ps| && |pkgs| == n
    ensures PkgsData(perf, k, events, ps, n) == Some(pkgs) <==>
      && PkgsData(perf, k, events, ps, n - 1) == Some(pkgs[..n - 1]) && pkgs[n - 1].id == ps[n - 1].id
      && CpusData(perf, k + CpusBefore(ps, n - 1), events, ps[n - 1].cpus, |ps[n - 1].cpus|) == Some(pkgs[n - 1].cpus)
  {
    var p := ps[n - 1];
    var before, cpus := PkgsData(perf, k, events, ps, n - 1), CpusData(perf, k + CpusBefore(ps, n - 1), events, p.cpus, |p.cpus|);
    assert pkgs == pkgs[..n - 1] + [pkgs[n - 1]];
    if before.Some? && cpus.Some? {
      SnocInjective(before.value, Pkg(p.id, cpus.value), pkgs[..n - 1], pkgs[n - 1]);
    }
  }

  /** The data of the packages of a group, in order, each starting where the reads for those
      before it end. */
  lemma {:induction false} PkgsExactly(perf: Perf, k: nat, events: seq<CString>, ps: seq<Package>, n: nat, pkgs: seq<Pkg>)
    requires n <= |ps|
    ensures PkgsData(perf, k, events, ps, n) == Some(pkgs) <==> PkgsAre(perf, k, events, ps, n, pkgs)
  {
    if n > 0 && |pkgs| == n {
      PkgsExactly(perf, k, events, ps, n - 1, pkgs[..n - 1]);
      PkgsDataNext(perf, k, events, ps, n, pkgs);
      CpusExactly(perf, k + CpusBefore(ps, n - 1), events, ps[n - 1].cpus, |ps[n - 1].cpus|, pkgs[n - 1].cpus);
      PkgsAreNext(perf, k, events, ps, n, pkgs);
    }
  }

  lemma GroupsAreNext(perf: Perf, k: nat, contexts: seq<GroupContext>, n: nat, groups: seq<Group>)
    requires 0 < n <= |contexts| && |groups| == n
    ensures GroupsAre(perf, k, contexts, n, groups) <==>
      && GroupsAre(perf, k, contexts, n - 1, groups[..n - 1])
      && GroupIs(perf, k + ReadsBefore(contexts, n - 1), contexts[n - 1], groups[n - 1])
  {
    assert forall g :: 0 <= g < n - 1 ==> groups[..n - 1][g] == groups[g];
  }

  lemma GroupsDataNext(perf: Perf, k: nat, contexts: seq<GroupContext>, n: nat, groups: seq<Group>)
    requires 0 < n <= |contexts| && |groups| == n
    ensures var g := contexts[n - 1];
      GroupsData(perf, k, contexts, n) == Some(groups) <==>
      && GroupsData(perf, k, contexts, n - 1) == Some(groups[..n - 1]) && groups[n - 1].name == g.name
      && PkgsData(perf, k + ReadsBefore(contexts, n - 1), g.events, g.pkgs, |g.pkgs|) == Some(groups[n - 1].pkgs)
  {
    var g := contexts[n - 1];
    var before := GroupsData(perf, k, contexts, n - 1);
    var pkgs := PkgsData(perf, k + ReadsBefore(contexts, n - 1), g.events, g.pkgs, |g.pkgs|);
    assert groups == groups[..n - 1] + [groups[n - 1]];
    if before.Some? && pkgs.Some? {
      SnocInjective(before.value, Group(g.name, pkgs.value), groups[..n - 1], groups[n - 1]);
    }
  }

  /** A payload is built exactly when every read it needs succeeds, and it then has exactly the
      nested shape of the monitored groups, packages and CPUs, the data of each CPU being filed
      from the read made for it. */
  lemma {:induction false} PayloadHasShape(perf: Perf, k: nat, contexts: seq<GroupContext>, n: nat, groups: seq<Group>)
    requires n <= |contexts|
    ensures GroupsData(perf, k, contexts, n) == Some(groups) <==> GroupsAre(perf, k, contexts, n, groups)
  {
    if n > 0 && |groups| == n {
      PayloadHasShape(perf, k, contexts, n - 1, groups[..n - 1]);
      GroupsNext(perf, k, contexts, n, groups);
    }
  }

  lemma GroupExactly(perf: Perf, k: nat, context: GroupContext, group: Group)
    ensures GroupIs(perf, k, context, group) <==>
      group.name == context.name
      && PkgsData(perf, k, context.events, context.pkgs, |context.pkgs|) == Some(group.pkgs)
  {
    PkgsExactly(perf, k, context.events, context.pkgs, |context.pkgs|, group.pkgs);
  }

  lemma GroupsNext(perf: Perf, k: nat, contexts: seq<GroupContext>, n: nat, groups: seq<Group>)
    requires 0 < n <= |contexts| && |groups| == n
    requires GroupsData(perf, k, contexts, n - 1) == Some(groups[..n - 1]) <==> GroupsAre(perf, k, contexts, n - 1, groups[..n - 1])
    ensures GroupsData(perf, k, contexts, n) == Some(groups) <==> GroupsAre(perf, k, contexts, n, groups)
  {
    OneMoreData(perf, k, contexts, n, groups, k + ReadsBefore(contexts, n - 1), contexts[n - 1], groups[n - 1]);
    GroupsAreNext(perf, k, contexts, n, groups);
  }

  lemma OneMoreData(perf: Perf, k: nat, contexts: seq<GroupContext>, n: nat, groups: seq<Group>, k': nat, context: GroupContext, group: Group)
    requires 0 < n <= |contexts| && |groups| == n
    requires k' == k + ReadsBefore(contexts, n - 1) && context == contexts[n - 1] && group == groups[n - 1]
    ensures GroupsData(perf, k, contexts, n) == Some(groups) <==>
      GroupsData(perf, k, contexts, n - 1) == Some(groups[..n - 1]) && GroupIs(perf, k', context, group)
  {
    GroupsDataNext(perf, k, contexts, n, groups);
    GroupExactly(perf, k', context, group);
  }

  // ----- From a tick to the rows of a file

  lemma {:induction false} CountOfData(perf: Perf, k: nat, events: seq<CString>, pkgs: seq<Package>, n: nat)
    requires n <= |pkgs| && PkgsData(perf, k, events, pkgs, n).Some?
    ensures CpuCount(PkgsData(perf, k, events, pkgs, n).value, n) == CpusBefore(pkgs, n)
  {
    if n > 0 {
      CountOfData(perf, k, events, pkgs, n - 1);
      var p := pkgs[n - 1];
      CountPrefix(PkgsData(perf, k, events, pkgs, n - 1).value, PkgsData(perf, k, events, pkgs, n).value, n - 1);
    }
  }

  lemma {:induction false} CountPrefix(a: seq<Pkg>, b: seq<Pkg>, n: nat)
    requires n <= |a| && a <= b
    ensures CpuCount(a, n) == CpuCount(b, n)
  {
    if n > 0 {
      CountPrefix(a, b, n - 1);
    }
  }

  /** The CPUs of the machine. */
  function OnlineCpus(hwinfo: seq<Package>, n: nat): nat
    requires n <= |hwinfo|
  {
    if n == 0 then 0 else OnlineCpus(hwinfo, n - 1) + |hwinfo[n - 1].cpus|
  }

  lemma {:induction false} MonitoredCount(g: EventsGroup, hwinfo: seq<Package>, n: nat)
    requires n <= |hwinfo| && forall i :: 0 <= i < |hwinfo| ==> hwinfo[i].cpus != []
    ensures CpusBefore(Monitored(g, hwinfo).pkgs, n) == if g.kind.OneCpu? then n else OnlineCpus(hwinfo, n)
  {
    if n > 0 {
      MonitoredCount(g, hwinfo, n - 1);
    }
  }

  /** One tick, set up, read and stored: the file of each group grows by one row per CPU of the
      machine, or one row per package for a group that monitors one CPU per socket, and by a
      header if it was new. */
  lemma TickAddsRows(groups: seq<EventsGroup>, hwinfo: seq<Package>, perf: Perf, k: nat,
                     s: CsvStore.Store, x: CsvStore.Context, env: CsvStore.Environment, i: nat)
    requires forall p :: 0 <= p < |hwinfo| ==> hwinfo[p].cpus != []
    requires hwinfo != [] && i < |groups|
    requires forall g, h :: 0 <= g < h < |groups| ==> groups[g].name != groups[h].name
    requires GroupsData(perf, k, SetUp(groups, hwinfo), |groups|).Some?
    requires CsvFiles.Valid(s)
    requires CsvStore.StoreReport(s, x, GroupsData(perf, k, SetUp(groups, hwinfo), |groups|).value, env).ok
    ensures var s' := CsvStore.StoreReport(s, x, GroupsData(perf, k, SetUp(groups, hwinfo), |groups|).value, env).store;
      var name := groups[i].name;
      && name in s'.files
      && |s'.files[name]| == (if name in s.files then |s.files[name]| else 0)
           + (if name in s.orders then 0 else 1)
           + (if groups[i].kind.OneCpu? then |hwinfo| else OnlineCpus(hwinfo, |hwinfo|))
  {
    var data := GroupsData(perf, k, SetUp(groups, hwinfo), |groups|).value;
    forall g | 0 <= g < |groups|
      ensures data[g].name == groups[g].name
      ensures CpuCount(data[g].pkgs, |data[g].pkgs|) ==
        if groups[g].kind.OneCpu? then |hwinfo| else OnlineCpus(hwinfo, |hwinfo|)
    {
      GroupCount(groups, hwinfo, perf, k, g);
    }
    OneOrMore(hwinfo, |hwinfo|);
    assert CsvFiles.AllHaveCpus(data) && CsvRows.DistinctGroups(data);
    CsvRows.ReportAddsRows(s, x, data, |data|, env);
    assert CsvRows.Added(s, CsvStore.StoreReport(s, x, data, env).store, x, data[i]);
  }

  lemma GroupCount(groups: seq<EventsGroup>, hwinfo: seq<Package>, perf: Perf, k: nat, g: nat)
    requires forall p :: 0 <= p < |hwinfo| ==> hwinfo[p].cpus != []
    requires g < |groups| && GroupsData(perf, k, SetUp(groups, hwinfo), |groups|).Some?
    ensures var data := GroupsData(perf, k, SetUp(groups, hwinfo), |groups|).value;
      && data[g].name == groups[g].name
      && CpuCount(data[g].pkgs, |data[g].pkgs|) ==
           if groups[g].kind.OneCpu? then |hwinfo| else OnlineCpus(hwinfo, |hwinfo|)
  {
    var contexts := SetUp(groups, hwinfo);
    var data := GroupsData(perf, k, contexts, |groups|).value;
    PayloadHasShape(perf, k, contexts, |groups|, data);
    GroupCountAt(perf, k, contexts, |groups|, data, g);
    MonitoredCount(groups[g], hwinfo, |hwinfo|);
  }

  lemma GroupCountAt(perf: Perf, k: nat, contexts: seq<GroupContext>, n: nat, groups: seq<Group>, g: nat)
    requires g < n <= |contexts| && GroupsAre(perf, k, contexts, n, groups)
    ensures groups[g].name == contexts[g].name
    ensures CpuCount(groups[g].pkgs, |groups[g].pkgs|) == CpusBefore(contexts[g].pkgs, |contexts[g].pkgs|)
  {
    GroupDataCount(perf, k + ReadsBefore(contexts, g), contexts[g], groups[g]);
  }

  lemma GroupDataCount(perf: Perf, k: nat, context: GroupContext, group: Group)
    requires GroupIs(perf, k, context, group)
    ensures CpuCount(group.pkgs, |group.pkgs|) == CpusBefore(context.pkgs, |context.pkgs|)
  {
    PkgsExactly(perf, k, context.events, context.pkgs, |context.pkgs|, group.pkgs);
    DataCount(perf, k, context, group.pkgs);
  }

  lemma DataCount(perf: Perf, k: nat, context: GroupContext, pkgs: seq<Pkg>)
    requires Some(pkgs) == PkgsData(perf, k, context.events, context.pkgs, |context.pkgs|)
    ensures CpuCount(pkgs, |pkgs|) == CpusBefore(context.pkgs, |context.pkgs|)
  {
    CountOfData(perf, k, context.events, context.pkgs, |context.pkgs|);
  }

  lemma {:induction false} OneOrMore(hwinfo: seq<Package>, n: nat)
    requires n <= |hwinfo| && forall i :: 0 <= i < |hwinfo| ==> hwinfo[i].cpus != []
    ensures OnlineCpus(hwinfo, n) >= n
  {
    if n > 0 {
      OneOrMore(hwinfo, n - 1);
    }
  }

  lemma {:induction false} NoCpusNoLeak(k: CsvFiles.Keys, groups: seq<Group>, n: nat)
    requires n <= |groups| && forall g :: 0 <= g < |groups| ==> !CsvFiles.HasCpu(groups[g])
    ensures !CsvFiles.Leaks(k, groups, n)
  {
    if n > 0 {
      NoCpusNoLeak(k, groups, n - 1);
    }
  }

  /** The payloads of a machine whose packages all have CPUs never put a second header into a
      file: either all their groups have CPUs or none has. */
  lemma PayloadsDoNotLeak(groups: seq<EventsGroup>, hwinfo: seq<Package>, perf: Perf, k: nat, s: CsvStore.Store)
    requires forall p :: 0 <= p < |hwinfo| ==> hwinfo[p].cpus != []
    requires GroupsData(perf, k, SetUp(groups, hwinfo), |groups|).Some? && s.orders.Keys <= s.files.Keys
    ensures !CsvFiles.Leaks(CsvFiles.StartKeys(s), GroupsData(perf, k, SetUp(groups, hwinfo), |groups|).value, |groups|)
  {
    var data := GroupsData(perf, k, SetUp(groups, hwinfo), |groups|).value;
    forall g | 0 <= g < |groups|
      ensures CpuCount(data[g].pkgs, |data[g].pkgs|) ==
        if groups[g].kind.OneCpu? then |hwinfo| else OnlineCpus(hwinfo, |hwinfo|)
    {
      GroupCount(groups, hwinfo, perf, k, g);
    }
    if hwinfo == [] {
      NoCpusNoLeak(CsvFiles.StartKeys(s), data, |groups|);
    } else {
      OneOrMore(hwinfo, |hwinfo|);
      CsvFiles.CpusDoNotLeak(CsvFiles.StartKeys(s), data, |groups|);
    }
  }
}
