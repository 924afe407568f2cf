/** Where every count goes: the read-then-reset of perf_events_group_read_cpu in src/perf.c while
    the counters keep counting. CPUs are numbered in the order in which a tick reads them. */
module Counters {
  import opened Text

  /** One value per counter of each CPU read so far. */
  type Table = seq<seq<nat>>

  /** Between a read and its reset the values read are held in the shared buffer; `since` is what
      the counters of that CPU have counted from the read on. */
  datatype Monitor = Idle | Reading(got: Table) | Resetting(got: Table, held: seq<nat>, since: seq<nat>)

  /** The counters, everything they ever counted, the payloads sent and the partial ones that
      were destroyed, and what was counted after a read and before the reset that followed it. */
  datatype State = State(
    current: Table, total: Table, monitor: Monitor,
    sent: seq<Table>, discarded: seq<Table>, gaps: Table)

  datatype Action = Count(cpu: nat, counter: nat, amount: nat) | Tick | Read | ReadFails | Reset | ResetFails | Send

  function At(t: Table, i: nat, j: nat): nat {
    if i < |t| && j < |t[i]| then t[i][j] else 0
  }

  function Put(t: Table, i: nat, j: nat, v: nat): Table
    requires i < |t| && j < |t[i]|
  {
    var row: seq<nat> := t[i][j := v];
    t[i := row]
  }

  function Sum(ts: seq<Table>, i: nat, j: nat): nat {
    if ts == [] then 0 else Sum(ts[..|ts| - 1], i, j) + At(ts[|ts| - 1], i, j)
  }

  /** What is being built is the CPUs whose read and reset both succeeded. */
  function Building(m: Monitor): Table {
    if m.Idle? then [] else m.got
  }

  predicate Enabled(s: State, a: Action) {
    match a
    case Count(i, j, _) => i < |s.current| && j < |s.current[i]| && i < |s.total| && j < |s.total[i]|
    case Tick => s.monitor.Idle?
    case Read => s.monitor.Reading? && |s.monitor.got| < |s.current|
    case ReadFails => s.monitor.Reading? && |s.monitor.got| < |s.current|
    case Reset => s.monitor.Resetting? && |s.monitor.got| < |s.current| 
      && |s.monitor.got| < |s.gaps| && |s.monitor.since| == |s.gaps[|s.monitor.got|]|
    case ResetFails => s.monitor.Resetting?
    case Send => s.monitor.Reading? && |s.monitor.got| == |s.current|
  }

  function Zero(n: nat): seq<nat> { seq(n, _ => 0) }

  function Plus(a: seq<nat>, b: seq<nat>): seq<nat>
    requires |a| == |b|
  {
    seq(|a|, j requires 0 <= j < |a| => a[j] + b[j])
  }

  /** A count also happens since the read, if its CPU is the one being read. */
  function Counted(m: Monitor, i: nat, j: nat, n: nat): Monitor {
    if m.Resetting? && i == |m.got| && j < |m.since| then m.(since := m.since[j := m.since[j] + n]) else m
  }

  function Next(s: State, a: Action): State
    requires Enabled(s, a)
  {
    match a
    case Count(i, j, n) =>
      s.(current := Put(s.current, i, j, s.current[i][j] + n), total := Put(s.total, i, j, s.total[i][j] + n),
         monitor := Counted(s.monitor, i, j, n))
    case Tick => s.(monitor := Reading([]))
    case Read =>
      var values := s.current[|s.monitor.got|];
      s.(monitor := Resetting(s.monitor.got, values, Zero(|values|)))
    case ReadFails => s.(monitor := Idle, discarded := s.discarded + [s.monitor.got])
    case Reset =>
      var i := |s.monitor.got|;
      s.(monitor := Reading(s.monitor.got + [s.monitor.held]),
         gaps := s.gaps[i := Plus(s.gaps[i], s.monitor.since)],
         current := s.current[i := Zero(|s.current[i]|)])
    case ResetFails => s.(monitor := Idle, discarded := s.discarded + [s.monitor.got])
    case Send => s.(monitor := Idle, sent := s.sent + [s.monitor.got])
  }

  /** No counter has counted yet; CPU i has `shape[i]` counters. */
  function Start(shape: seq<nat>): State {
    var zero := seq(|shape|, i requires 0 <= i < |shape| => Zero(shape[i]));
    State(zero, zero, Idle, [], [], zero)
  }

  /** The state after a run of actions, if each was enabled in its turn. */
  function Reach(shape: seq<nat>, actions: seq<Action>): Option<State> {
    if actions == [] then Some(Start(shape))
    else
      match Reach(shape, actions[..|actions| - 1])
      case None => None
      case Some(s) =>
        var a := actions[|actions| - 1];
        if Enabled(s, a) then Some(Next(s, a)) else None
  }

  ghost predicate SameShape(a: Table, b: Table) {
    |a| == |b| && forall i :: 0 <= i < |a| ==> |a[i]| == |b[i]|
  }

  /** The next CPU shows the values held and what it has counted since. */
  ghost predicate HeldInv(current: Table, m: Monitor) {
    && (m.Reading? ==> |m.got| <= |current|)
    && (m.Resetting? ==>
         && |m.got| < |current| && |m.held| == |m.since| == |current[|m.got|]|
         && forall j :: 0 <= j < |m.held| ==> current[|m.got|][j] == m.held[j] + m.since[j])
  }

  ghost predicate Shapes(s: State) {
    SameShape(s.current, s.total) && SameShape(s.current, s.gaps) && HeldInv(s.current, s.monitor)
  }

  /** Every count is in exactly one place. */
  ghost predicate Conserved(s: State, i: nat, j: nat) {
    At(s.total, i, j) ==
      Sum(s.sent, i, j) + Sum(s.discarded, i, j) + At(Building(s.monitor), i, j) + At(s.gaps, i, j) + At(s.current, i, j)
  }

  lemma SumSnoc(ts: seq<Table>, t: Table, i: nat, j: nat)
    ensures Sum(ts + [t], i, j) == Sum(ts, i, j) + At(t, i, j)
  {
    assert (ts + [t])[..|ts|] == ts;
  }

  lemma ShapesStay(s: State, a: Action)
    requires Shapes(s) && Enabled(s, a)
    ensures Shapes(Next(s, a))
  {}

  /** A reset moves the values held into the payload and the rest of the counter into the gap. */
  lemma ResetConserves(s: State, i: nat, j: nat)
    requires Shapes(s) && Enabled(s, Reset) && Conserved(s, i, j)
    ensures Conserved(Next(s, Reset), i, j)
  {
    var k := |s.monitor.got|;
    var s' := Next(s, Reset);
    if i == k {
      assert s'.monitor.got[k] == s.monitor.held;
      assert At(s.monitor.got, i, j) == 0;
    } else {
      assert At(s'.monitor.got, i, j) == At(s.monitor.got, i, j);
    }
  }

  lemma StepConserves(s: State, a: Action, i: nat, j: nat)
    requires Shapes(s) && Enabled(s, a) && Conserved(s, i, j)
    ensures Conserved(Next(s, a), i, j)
  {
    match a {
      case Count(_, _, _) =>
      case Tick =>
      case Read =>
      case ReadFails => SumSnoc(s.discarded, s.monitor.got, i, j);
      case Reset => ResetConserves(s, i, j);
      case ResetFails => SumSnoc(s.discarded, s.monitor.got, i, j);
      case Send => SumSnoc(s.sent, s.monitor.got, i, j);
    }
  }

  /** On every run, whatever fails and whenever the counters count: everything counted is in a
      payload that was sent, in one that was destroyed, in the one being built, between a read
      and its reset, or still in the counter, and in only one of these. */
  lemma {:induction false} CountsAreConserved(shape: seq<nat>, actions: seq<Action>, i: nat, j: nat)
    ensures var r := Reach(shape, actions); r.Some? ==>
      && Shapes(r.value) && Conserved(r.value, i, j)
      && (r.value.monitor.Resetting? ==> Enabled(r.value, Reset))
  {
    if actions != [] {
      var before, a := Reach(shape, actions[..|actions| - 1]), actions[|actions| - 1];
      CountsAreConserved(shape, actions[..|actions| - 1], i, j);
      if before.Some? && Enabled(before.value, a) {
        ShapesStay(before.value, a);
        StepConserves(before.value, a, i, j);
      }
    }
  }

  /** In particular nothing is reported twice: the payloads sent never show more than was counted. */
  lemma SentIsCounted(shape: seq<nat>, actions: seq<Action>, i: nat, j: nat)
    requires Reach(shape, actions).Some?
    ensures var s := Reach(shape, actions).value; Sum(s.sent, i, j) <= At(s.total, i, j)
  {
    CountsAreConserved(shape, actions, i, j);
  }

  // ----- Which payloads are sent, and that every tick makes one

  ghost predicate Whole(t: Table, cpus: nat) { |t| == cpus }

  ghost predicate Partial(t: Table, cpus: nat) { |t| < cpus }

  function Ticks(actions: seq<Action>): nat {
    if actions == [] then 0 else Ticks(actions[..|actions| - 1]) + if actions[|actions| - 1].Tick? then 1 else 0
  }

  /** Every tick so far has become a payload that was sent or destroyed, or it is being read. */
  ghost predicate Accounted(s: State, cpus: nat, ticks: nat) {
    && |s.current| == cpus
    && (!s.monitor.Idle? ==> |s.monitor.got| <= cpus) && (s.monitor.Resetting? ==> |s.monitor.got| < cpus)
    && (forall i :: 0 <= i < |s.sent| ==> Whole(s.sent[i], cpus))
    && (forall i :: 0 <= i < |s.discarded| ==> Partial(s.discarded[i], cpus))
    && ticks == |s.sent| + |s.discarded| + if s.monitor.Idle? then 0 else 1
  }

  lemma StepAccounts(s: State, a: Action, cpus: nat, ticks: nat)
    requires Accounted(s, cpus, ticks) && Enabled(s, a)
    ensures Accounted(Next(s, a), cpus, ticks + if a.Tick? then 1 else 0)
  {}

  /** On every run: the payloads sent have the values of all CPUs, those destroyed lack at least one,
      and every tick has led to exactly one of them unless it is still being read. */
  lemma {:induction false} SentAreWhole(shape: seq<nat>, actions: seq<Action>)
    requires Reach(shape, actions).Some?
    ensures Accounted(Reach(shape, actions).value, |shape|, Ticks(actions))
  {
    if actions != [] {
      var before, a := actions[..|actions| - 1], actions[|actions| - 1];
      SentAreWhole(shape, before);
      StepAccounts(Reach(shape, before).value, a, |shape|, Ticks(before));
    }
  }

  function From(s: State, actions: seq<Action>): Option<State>
    decreases |actions|
  {
    if actions == [] then Some(s)
    else if Enabled(s, actions[0]) then From(Next(s, actions[0]), actions[1..])
    else None
  }

  lemma FromFirst(s: State, a: Action, rest: seq<Action>)
    requires Enabled(s, a)
    ensures From(s, [a] + rest) == From(Next(s, a), rest)
  {
    assert ([a] + rest)[1..] == rest;
  }

  /** The first `n` CPUs have been read and reset, since `t` showed the counters. */
  ghost predicate ReadSoFar(s: State, t: Table, n: nat) {
    && s.monitor.Reading? && n <= |t| == |s.current| && s.monitor.got == t[..n]
    && (forall i :: 0 <= i < |t| ==> s.current[i] == if i < n then Zero(|t[i]|) else t[i])
  }

  lemma ReadNext(s: State, t: Table, n: nat)
    requires Shapes(s) && ReadSoFar(s, t, n) && n < |t|
    ensures Enabled(s, Read) && Enabled(Next(s, Read), Reset)
    ensures var r := Next(Next(s, Read), Reset); Shapes(r) && ReadSoFar(r, t, n + 1) && r.sent == s.sent && r.total == s.total
  {
    ShapesStay(s, Read);
    ShapesStay(Next(s, Read), Reset);
  }

  lemma {:induction false} ReadAll(s: State, t: Table, n: nat) returns (actions: seq<Action>)
    requires Shapes(s) && ReadSoFar(s, t, n)
    ensures From(s, actions).Some?
    ensures var r := From(s, actions).value;
      r.monitor.Idle? && r.sent == s.sent + [t] && r.total == s.total
      && |r.current| == |t| && forall i :: 0 <= i < |t| ==> r.current[i] == Zero(|t[i]|)
    decreases |t| - n
  {
    if n == |t| {
      assert t[..n] == t;
      actions := [Send];
      FromFirst(s, Send, []);
      assert [Send] + [] == [Send];
    } else {
      ReadNext(s, t, n);
      var m := Next(s, Read);
      var rest := ReadAll(Next(m, Reset), t, n + 1);
      actions := [Read] + ([Reset] + rest);
      FromFirst(m, Reset, rest);
      FromFirst(s, Read, [Reset] + rest);
    }
  }

  /** After every run between two ticks, a tick in which nothing fails and nothing counts meanwhile
      sends exactly what all counters show, and leaves them all at zero. */
  lemma TickSendsAll(shape: seq<nat>, before: seq<Action>) returns (actions: seq<Action>)
    requires Reach(shape, before).Some? && Reach(shape, before).value.monitor.Idle?
    ensures From(Reach(shape, before).value, actions).Some?
    ensures var s, r := Reach(shape, before).value, From(Reach(shape, before).value, actions).value;
      r.monitor.Idle? && r.sent == s.sent + [s.current] && r.total == s.total
      && |r.current| == |s.current| && forall i :: 0 <= i < |s.current| ==> r.current[i] == Zero(|s.current[i]|)
  {
    var s := Reach(shape, before).value;
    CountsAreConserved(shape, before, 0, 0);
    ShapesStay(s, Tick);
    var rest := ReadAll(Next(s, Tick), s.current, 0);
    actions := [Tick] + rest;
    FromFirst(s, Tick, rest);
  }

  lemma ReachNext(shape: seq<nat>, before: seq<Action>, s: State, a: Action)
    requires Reach(shape, before) == Some(s) && Enabled(s, a)
    ensures Reach(shape, before + [a]) == Some(Next(s, a))
  {
    assert (before + [a])[..|before|] == before;
  }

  /** A step to a state given by its parts. */
  lemma StepTo(shape: seq<nat>, before: seq<Action>, s: State, a: Action, s': State) returns (after: seq<Action>)
    requires Reach(shape, before) == Some(s) && Enabled(s, a) && Next(s, a) == s'
    ensures after == before + [a] && Reach(shape, after) == Some(s')
  {
    ReachNext(shape, before, s, a);
    after := before + [a];
  }

  lemma SmallTables(n: nat, more: Table)
    ensures Zero(1) == [0]
    ensures Put([[0]] + more, 0, 0, n) == [[n]] + more
    ensures Plus([0], [n]) == [n]
    ensures ([[n]] + more)[0 := [0]] == [[0]] + more
    ensures ([[0]] + more)[0 := [n]] == [[n]] + more
  {
    assert [0][0 := n] == [n];
    assert Plus([0], [n])[0] == n;
  }

  lemma SmallStart()
    ensures Start([1]) == State([[0]], [[0]], Idle, [], [], [[0]])
    ensures Start([1, 1]) == State([[0], [0]], [[0], [0]], Idle, [], [], [[0], [0]])
  {
    SmallTables(0, []);
    assert Start([1]).current == [Zero(1)] && Start([1, 1]).current == [Zero(1), Zero(1)];
  }

  lemma GotFirst(row: seq<nat>)
    ensures var none: Table := []; none + [row] == [row]
  {}

  /** The only CPU is read, counts `n`, and is reset. */
  lemma ReadLate(n: nat)
    ensures var reading := State([[0]], [[0]], Reading([]), [], [], [[0]]);
      && Next(reading, Read) == reading.(monitor := Resetting([], [0], [0]))
      && Next(Next(reading, Read), Count(0, 0, n)) == State([[n]], [[n]], Resetting([], [0], [n]), [], [], [[0]])
      && Next(Next(Next(reading, Read), Count(0, 0, n)), Reset) == State([[0]], [[n]], Reading([[0]]), [], [], [[n]])
  {
    SmallTables(n, []);
    assert [[n]] + [] == [[n]] && [[0]] + [] == [[0]] && [[0]][0 := [n]] == [[n]] && [[n]][0 := [0]] == [[0]];
    var read := State([[0]], [[0]], Resetting([], [0], [0]), [], [], [[0]]);
    assert Counted(read.monitor, 0, 0, n) == Resetting([], [0], [n]) by { assert [0][0 := 0 + n] == [n]; }
    GotFirst([0]);
  }

  /** What counts between a read and the reset after it is in no payload. */
  lemma GapsLose(n: nat) returns (actions: seq<Action>)
    ensures Reach([1], actions) == Some(State([[0]], [[n]], Idle, [[[0]]], [], [[n]]))
  {
    SmallStart();
    ReadLate(n);
    var start := Start([1]);
    var reading := start.(monitor := Reading([]));
    var read, counted := Next(reading, Read), Next(Next(reading, Read), Count(0, 0, n));
    actions := StepTo([1], [], start, Tick, reading);
    actions := StepTo([1], actions, reading, Read, read);
    actions := StepTo([1], actions, read, Count(0, 0, n), counted);
    var done := Next(counted, Reset);
    actions := StepTo([1], actions, counted, Reset, done);
    actions := StepTo([1], actions, done, Send, done.(monitor := Idle, sent := [[[0]]]));
  }

  /** The first CPU of two counts `n`, and is read and reset. */
  lemma ReadFirst(n: nat)
    ensures var start := State([[0], [0]], [[0], [0]], Idle, [], [], [[0], [0]]);
      var counted := State([[n], [0]], [[n], [0]], Idle, [], [], [[0], [0]]);
      && Next(start, Count(0, 0, n)) == counted
      && var reading := counted.(monitor := Reading([]));
      && Next(reading, Read) == reading.(monitor := Resetting([], [n], [0]))
      && Next(Next(reading, Read), Reset) == State([[0], [0]], [[n], [0]], Reading([[n]]), [], [], [[0], [0]])
  {
    SmallTables(n, [[0]]);
    SmallTables(0, [[0]]);
    assert [[n]] + [[0]] == [[n], [0]] && [[0]] + [[0]] == [[0], [0]];
    GotFirst([n]);
  }

  /** A read that fails loses what the CPUs read before it had counted, as their counters are reset. */
  lemma FailuresLose(n: nat) returns (actions: seq<Action>)
    ensures Reach([1, 1], actions) == Some(State([[0], [0]], [[n], [0]], Idle, [], [[[n]]], [[0], [0]]))
  {
    SmallStart();
    ReadFirst(n);
    var start := Start([1, 1]);
    var counted := Next(start, Count(0, 0, n));
    var reading := counted.(monitor := Reading([]));
    actions := StepTo([1, 1], [], start, Count(0, 0, n), counted);
    actions := StepTo([1, 1], actions, counted, Tick, reading);
    actions := StepTo([1, 1], actions, reading, Read, Next(reading, Read));
    var reset := Next(Next(reading, Read), Reset);
    actions := StepTo([1, 1], actions, Next(reading, Read), Reset, reset);
    actions := StepTo([1, 1], actions, reset, ReadFails, reset.(monitor := Idle, discarded := [[[n]]]));
  }
}
