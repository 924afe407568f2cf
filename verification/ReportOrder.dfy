/** The order of the reports of one target when its container goes away and comes back: two
    actors then send payloads under the same name. */
module ReportOrder {
  import opened Text
  import opened Handoff

  /** The target name of each actor. */
  type Names = nat -> CString

  ghost predicate Strict(line: seq<nat>) { forall i, j :: 0 <= i < j < |line| ==> line[i] < line[j] }

  /** The ticks reported under a name, in the order in which the storage gets them. */
  function Reported(log: seq<Offer>, names: Names, name: CString): seq<nat> {
    if log == [] then []
    else if names(log[|log| - 1].lane) == name then Reported(log[..|log| - 1], names, name) + [log[|log| - 1].tick]
    else Reported(log[..|log| - 1], names, name)
  }

  lemma ReportedNext(log: seq<Offer>, o: Offer, names: Names, name: CString)
    ensures Reported(log + [o], names, name) ==
      if names(o.lane) == name then Reported(log, names, name) + [o.tick] else Reported(log, names, name)
  {
    assert (log + [o])[..|log|] == log;
  }

  ghost predicate InOrder(s: State, names: Names, name: CString) { Strict(Reported(s.log, names, name)) }

  // ----- What can still go wrong

  /** The reports of the name so far, then what one of its actors may still report, are in order. */
  ghost predicate LaneSafe(s: State, names: Names, name: CString, t: nat)
    requires t < |s.lanes|
  {
    names(t) == name ==> Strict(Reported(s.log, names, name) + Pending(s.lanes[t]))
  }

  /** Two different actors of the name that both have something to report. */
  ghost predicate Rivals(s: State, names: Names, name: CString, t: nat, u: nat)
    requires t < |s.lanes| && u < |s.lanes|
  {
    t != u && names(t) == names(u) == name && Pending(s.lanes[t]) != [] && Pending(s.lanes[u]) != []
  }

  ghost predicate Safe(s: State, names: Names, name: CString) {
    && InOrder(s, names, name)
    && (forall t :: 0 <= t < |s.lanes| ==> LaneSafe(s, names, name, t))
    && (forall t, u :: 0 <= t < |s.lanes| && 0 <= u < |s.lanes| ==> !Rivals(s, names, name, t, u))
  }

  lemma StrictPrefix(a: seq<nat>, b: seq<nat>)
    requires Strict(a + b)
    ensures Strict(a)
  {
    forall i, j | 0 <= i < j < |a|
      ensures a[i] < a[j]
    {
      assert (a + b)[i] == a[i] && (a + b)[j] == a[j];
    }
  }

  lemma StrictRemoval(a: seq<nat>, b: seq<nat>, k: nat)
    requires Strict(a + b) && k < |b|
    ensures Strict(a + (b[..k] + b[k + 1..]))
  {
    var all, n := a + b, |a| + k;
    assert a + (b[..k] + b[k + 1..]) == all[..n] + all[n + 1..];
    RemovalStrict(all, n);
  }

  lemma RemovalStrict(line: seq<nat>, k: nat)
    requires k < |line| && Strict(line)
    ensures Strict(line[..k] + line[k + 1..])
  {
    var rest := line[..k] + line[k + 1..];
    forall i | 0 <= i < |rest|
      ensures rest[i] == if i < k then line[i] else line[i + 1]
    {}
  }

  // ----- What a step does to the ticks pending

  /** What is pending of an actor stays, or loses one tick. */
  ghost predicate Fewer(p: seq<nat>, p': seq<nat>) {
    p' == p || exists k :: 0 <= k < |p| && p' == p[..k] + p[k + 1..]
  }

  lemma AbortPending(l: Lane)
    requires l.building.Some?
    ensures Fewer(Pending(l), Pending(l.(building := None)))
  {
    var k := |l.flight|;
    assert Pending(l.(building := None)) == Pending(l)[..k] + Pending(l)[k + 1..];
  }

  lemma TakePending(l: Lane, id: nat)
    requires l.building.None? && l.inbox != []
    ensures Pending(l.(inbox := l.inbox[1..], building := Some(Payload(id, l.inbox[0])))) == Pending(l)
    ensures Fewer(Pending(l), Pending(l.(inbox := l.inbox[1..])))
  {
    var k := |l.flight|;
    assert l.inbox == [l.inbox[0]] + l.inbox[1..];
    assert Pending(l.(inbox := l.inbox[1..])) == Pending(l)[..k] + Pending(l)[k + 1..];
  }

  lemma SendPending(l: Lane)
    requires l.building.Some?
    ensures Pending(l.(building := None, flight := l.flight + [l.building.value])) == Pending(l)
  {
    assert TicksOf(l.flight + [l.building.value]) == TicksOf(l.flight) + [l.building.value.tick];
  }

  lemma ReceivePending(l: Lane)
    requires l.flight != []
    ensures Pending(l) == [l.flight[0].tick] + Pending(l.(flight := l.flight[1..]))
  {
    assert TicksOf(l.flight) == [l.flight[0].tick] + TicksOf(l.flight[1..]);
  }

  /** A step of an actor that reports nothing. */
  ghost predicate Quiet(s: State, s': State, t: nat) {
    && t < |s.lanes| == |s'.lanes| && s'.log == s.log
    && Fewer(Pending(s.lanes[t]), Pending(s'.lanes[t]))
    && forall u :: 0 <= u < |s.lanes| && u != t ==> Pending(s'.lanes[u]) == Pending(s.lanes[u])
  }

  /** A step that gives the storage the first tick pending of an actor. */
  ghost predicate Delivers(s: State, s': State, t: nat) {
    && t < |s.lanes| == |s'.lanes| && Pending(s.lanes[t]) != []
    && s'.log == s.log + [Offer(t, Pending(s.lanes[t])[0])]
    && Pending(s'.lanes[t]) == Pending(s.lanes[t])[1..]
    && forall u :: 0 <= u < |s.lanes| && u != t ==> Pending(s'.lanes[u]) == Pending(s.lanes[u])
  }

  lemma StepIs(s: State, a: Action)
    requires Enabled(s, a) && !a.Tick? && !a.Stored?
    ensures if a.Receive? then Delivers(s, Next(s, a), a.lane) else Quiet(s, Next(s, a), a.lane)
  {
    var l := s.lanes[a.lane];
    match a {
      case Create(_) => TakePending(l, s.created);
      case CreateFails(_) => TakePending(l, 0);
      case Send(_) => SendPending(l);
      case Abort(_) => AbortPending(l);
      case Receive(_) =>
        ReceivePending(l);
        assert Pending(Next(s, a).lanes[a.lane]) == Pending(l.(flight := l.flight[1..]));
    }
  }

  lemma QuietKeeps(s: State, s': State, t: nat, names: Names, name: CString)
    requires Safe(s, names, name) && Quiet(s, s', t)
    ensures Safe(s', names, name)
  {
    assert LaneSafe(s, names, name, t);
    var p, p' := Pending(s.lanes[t]), Pending(s'.lanes[t]);
    if names(t) == name && p' != p {
      var k :| 0 <= k < |p| && p' == p[..k] + p[k + 1..];
      StrictRemoval(Reported(s.log, names, name), p, k);
    }
    forall u | 0 <= u < |s'.lanes|
      ensures LaneSafe(s', names, name, u)
    {
      assert LaneSafe(s, names, name, u);
    }
    forall u, v | 0 <= u < |s'.lanes| && 0 <= v < |s'.lanes|
      ensures !Rivals(s', names, name, u, v)
    {
      assert !Rivals(s, names, name, u, v);
    }
  }

  lemma DeliveryReports(s: State, s': State, t: nat, names: Names, name: CString)
    requires Delivers(s, s', t) && names(t) == name
    ensures Reported(s'.log, names, name) + Pending(s'.lanes[t]) == Reported(s.log, names, name) + Pending(s.lanes[t])
    ensures |Pending(s'.lanes[t])| < |Pending(s.lanes[t])|
  {
    var p := Pending(s.lanes[t]);
    ReportedNext(s.log, Offer(t, p[0]), names, name);
    MoveFirst(Reported(s.log, names, name), p);
  }

  lemma MoveFirst(a: seq<nat>, b: seq<nat>)
    requires b != []
    ensures (a + [b[0]]) + b[1..] == a + b
  {}

  lemma DeliveryOrdered(s: State, s': State, t: nat, names: Names, name: CString)
    requires Delivers(s, s', t) && InOrder(s, names, name) && LaneSafe(s, names, name, t)
    ensures InOrder(s', names, name) && LaneSafe(s', names, name, t)
  {
    if names(t) == name {
      DeliveryReports(s, s', t, names, name);
      StrictPrefix(Reported(s'.log, names, name), Pending(s'.lanes[t]));
    } else {
      ReportedNext(s.log, Offer(t, Pending(s.lanes[t])[0]), names, name);
    }
  }

  lemma DeliveryKeepsOther(s: State, s': State, t: nat, names: Names, name: CString, u: nat)
    requires Delivers(s, s', t) && InOrder(s', names, name)
    requires u < |s.lanes| && u != t && LaneSafe(s, names, name, u) && !Rivals(s, names, name, t, u)
    ensures LaneSafe(s', names, name, u)
  {
    if names(u) == name {
      if names(t) == name {
        var reported := Reported(s'.log, names, name);
        assert reported + Pending(s'.lanes[u]) == reported;
      } else {
        ReportedNext(s.log, Offer(t, Pending(s.lanes[t])[0]), names, name);
      }
    }
  }

  lemma DeliveryKeeps(s: State, s': State, t: nat, names: Names, name: CString)
    requires Safe(s, names, name) && Delivers(s, s', t)
    ensures Safe(s', names, name)
  {
    DeliveryOrdered(s, s', t, names, name);
    forall u | 0 <= u < |s'.lanes|
      ensures LaneSafe(s', names, name, u)
    {
      if u != t {
        DeliveryKeepsOther(s, s', t, names, name, u);
      }
    }
    forall u, v | 0 <= u < |s'.lanes| && 0 <= v < |s'.lanes|
      ensures !Rivals(s', names, name, u, v)
    {
      assert !Rivals(s, names, name, u, v);
    }
  }

  lemma StepKeepsSafe(s: State, a: Action, names: Names, name: CString)
    requires Safe(s, names, name) && Enabled(s, a) && !a.Tick?
    ensures Safe(Next(s, a), names, name)
  {
    if a.Stored? {
      SameSafe(s, Next(s, a), names, name);
    } else {
      StepIs(s, a);
      if a.Receive? {
        DeliveryKeeps(s, Next(s, a), a.lane, names, name);
      } else {
        QuietKeeps(s, Next(s, a), a.lane, names, name);
      }
    }
  }

  lemma SameSafe(s: State, s': State, names: Names, name: CString)
    requires Safe(s, names, name) && s'.lanes == s.lanes && s'.log == s.log
    ensures Safe(s', names, name)
  {
    forall t | 0 <= t < |s'.lanes|
      ensures LaneSafe(s', names, name, t)
    {
      assert LaneSafe(s, names, name, t);
    }
    forall t, u | 0 <= t < |s'.lanes| && 0 <= u < |s'.lanes|
      ensures !Rivals(s', names, name, t, u)
    {
      assert !Rivals(s, names, name, t, u);
    }
  }

  // ----- Every run without a new tick

  ghost predicate NoTick(actions: seq<Action>) { forall i :: 0 <= i < |actions| ==> !actions[i].Tick? }

  lemma {:induction false} RunKeepsSafe(s: State, actions: seq<Action>, names: Names, name: CString)
    requires Safe(s, names, name) && NoTick(actions) && From(s, actions).Some?
    ensures Safe(From(s, actions).value, names, name)
  {
    if actions != [] {
      var before := actions[..|actions| - 1];
      assert forall i :: 0 <= i < |before| ==> before[i] == actions[i];
      RunKeepsSafe(s, before, names, name);
      StepKeepsSafe(From(s, before).value, actions[|actions| - 1], names, name);
    }
  }

  lemma {:induction false} FromConcat(s: State, a: seq<Action>, b: seq<Action>)
    requires From(s, a).Some?
    ensures From(s, a + b) == From(From(s, a).value, b)
  {
    if b == [] {
      assert a + b == a;
    } else {
      assert (a + b)[..|a + b| - 1] == a + b[..|b| - 1];
      FromConcat(s, a, b[..|b| - 1]);
    }
  }

  lemma OneAction(s: State, a: Action)
    requires Enabled(s, a)
    ensures From(s, [a]) == Some(Next(s, a))
  {
    assert [a][..0] == [];
  }

  lemma Continue(s: State, actions: seq<Action>, s': State, a: Action) returns (more: seq<Action>)
    requires NoTick(actions) && From(s, actions) == Some(s') && Enabled(s', a) && !a.Tick?
    ensures NoTick(more) && From(s, more) == Some(Next(s', a))
  {
    more := actions + [a];
    assert forall i :: 0 <= i < |actions| ==> more[i] == actions[i];
    FromConcat(s, actions, [a]);
    OneAction(s', a);
  }

  lemma MakeRoom(s: State) returns (actions: seq<Action>, s': State)
    ensures NoTick(actions) && From(s, actions) == Some(s')
    ensures s'.storing.None? && s'.lanes == s.lanes && s'.log == s.log
  {
    actions, s' := [], s;
    if s.storing.Some? {
      actions := Continue(s, [], s, Stored);
      s' := Next(s, Stored);
    }
  }

  /** The same ticks are pending, and the first one of actor `t` is on the way. */
  ghost predicate Brought(s: State, s': State, t: nat) {
    && t < |s.lanes| == |s'.lanes| && s'.log == s.log && s'.storing == s.storing
    && s'.lanes[t].flight != [] && Pending(s'.lanes[t]) == Pending(s.lanes[t])
    && forall u :: 0 <= u < |s.lanes| && u != t ==> s'.lanes[u] == s.lanes[u]
  }

  lemma BringFirst(s: State, t: nat) returns (actions: seq<Action>, s': State)
    requires t < |s.lanes| && Pending(s.lanes[t]) != []
    ensures NoTick(actions) && From(s, actions) == Some(s') && Brought(s, s', t)
  {
    actions, s' := [], s;
    if s.lanes[t].flight == [] {
      if s.lanes[t].building.None? {
        actions := Continue(s, [], s, Create(t));
        s' := Next(s, Create(t));
        TakePending(s.lanes[t], s.created);
      }
      var m := s';
      actions := Continue(s, actions, m, Send(t));
      s' := Next(m, Send(t));
      SendPending(m.lanes[t]);
    }
  }

  /** Any tick pending of an actor that is its first one can be the next to be reported. */
  lemma DeliverFirst(s: State, t: nat) returns (actions: seq<Action>, s': State)
    requires t < |s.lanes| && Pending(s.lanes[t]) != []
    ensures NoTick(actions) && From(s, actions) == Some(s') && Delivers(s, s', t)
  {
    var free, f := MakeRoom(s);
    var bring, m := BringFirst(f, t);
    var both := free + bring;
    FromConcat(s, free, bring);
    actions := Continue(s, both, m, Receive(t));
    s' := Next(m, Receive(t));
    StepIs(m, Receive(t));
  }

  lemma Chain(s: State, a: seq<Action>, m: State, b: seq<Action>, s': State)
    requires NoTick(a) && NoTick(b) && From(s, a) == Some(m) && From(m, b) == Some(s')
    ensures NoTick(a + b) && From(s, a + b) == Some(s')
  {
    FromConcat(s, a, b);
  }

  lemma {:induction false} DeliverAll(s: State, t: nat, names: Names, name: CString) returns (actions: seq<Action>, s': State)
    requires t < |s.lanes| && names(t) == name
    ensures NoTick(actions) && From(s, actions) == Some(s')
    ensures Reported(s'.log, names, name) == Reported(s.log, names, name) + Pending(s.lanes[t])
    decreases |Pending(s.lanes[t])|
  {
    var p, reported := Pending(s.lanes[t]), Reported(s.log, names, name);
    if p == [] {
      actions, s' := [], s;
      assert reported + p == reported;
    } else {
      var first, m := DeliverFirst(s, t);
      DeliveryReports(s, m, t, names, name);
      var rest;
      rest, s' := DeliverAll(m, t, names, name);
      actions := first + rest;
      Chain(s, first, m, rest, s');
    }
  }

  /** Of two actors that both have something to report, the one with the later tick can come
      first. */
  lemma RivalsDisorder(s: State, t: nat, u: nat, names: Names, name: CString) returns (actions: seq<Action>, s': State)
    requires t < |s.lanes| && u < |s.lanes| && Rivals(s, names, name, t, u)
    requires Pending(s.lanes[t])[0] <= Pending(s.lanes[u])[0]
    ensures NoTick(actions) && From(s, actions) == Some(s') && !InOrder(s', names, name)
  {
    var x, y := Pending(s.lanes[t])[0], Pending(s.lanes[u])[0];
    var first, m := DeliverFirst(s, u);
    ReportedNext(s.log, Offer(u, y), names, name);
    var second;
    second, s' := DeliverFirst(m, t);
    ReportedNext(m.log, Offer(t, x), names, name);
    actions := first + second;
    Chain(s, first, m, second, s');
    var n := |Reported(s.log, names, name)|;
    assert Reported(s'.log, names, name)[n] == y && Reported(s'.log, names, name)[n + 1] == x;
  }

  lemma Disorder(s: State, names: Names, name: CString) returns (actions: seq<Action>)
    requires !Safe(s, names, name)
    ensures NoTick(actions) && From(s, actions).Some? && !InOrder(From(s, actions).value, names, name)
  {
    var s': State;
    if !InOrder(s, names, name) {
      actions := [];
    } else if t: nat :| t < |s.lanes| && !LaneSafe(s, names, name, t) {
      actions, s' := DeliverAll(s, t, names, name);
    } else {
      var t: nat, u: nat :| t < |s.lanes| && u < |s.lanes| && Rivals(s, names, name, t, u);
      if Pending(s.lanes[t])[0] <= Pending(s.lanes[u])[0] {
        actions, s' := RivalsDisorder(s, t, u, names, name);
      } else {
        assert Rivals(s, names, name, u, t);
        actions, s' := RivalsDisorder(s, u, t, names, name);
      }
    }
  }

  ghost predicate KeepsOrder(s: State, actions: seq<Action>, names: Names, name: CString) {
    NoTick(actions) && From(s, actions).Some? ==> InOrder(From(s, actions).value, names, name)
  }

  /** Whatever happens before the next tick, the reports under a name stay in order: exactly when
      they are so far, only one actor of that name has anything left to report, and that is later
      than what was reported. */
  lemma OrderIsSafety(s: State, names: Names, name: CString)
    ensures (forall actions :: KeepsOrder(s, actions, names, name)) <==> Safe(s, names, name)
  {
    if Safe(s, names, name) {
      forall actions
        ensures KeepsOrder(s, actions, names, name)
      {
        if NoTick(actions) && From(s, actions).Some? {
          RunKeepsSafe(s, actions, names, name);
        }
      }
    } else {
      var actions := Disorder(s, names, name);
      assert !KeepsOrder(s, actions, names, name);
    }
  }

  // ----- Whole runs

  /** No actor of the name hears the tick while another one hears it or has something to report. */
  ghost predicate Alone(s: State, heard: set<nat>, names: Names, name: CString) {
    forall t: nat, u: nat :: t < |s.lanes| && u < |s.lanes| && t != u && names(t) == names(u) == name && t in heard ==>
      u !in heard && Pending(s.lanes[u]) == []
  }

  ghost predicate AlwaysAlone(actors: nat, actions: seq<Action>, names: Names, name: CString) {
    forall i :: 0 <= i < |actions| && actions[i].Tick? && Reach(actors, actions[..i]).Some? ==>
      Alone(Reach(actors, actions[..i]).value, actions[i].heard, names, name)
  }

  ghost predicate Past(line: seq<nat>, bound: nat) { forall i :: 0 <= i < |line| ==> line[i] < bound }

  lemma TickPending(l: Lane, tick: nat)
    ensures Pending(l.(inbox := l.inbox + [tick])) == Pending(l) + [tick]
  {}

  lemma StrictSnoc(line: seq<nat>, tick: nat)
    requires Strict(line) && Past(line, tick)
    ensures Strict(line + [tick])
  {}

  lemma PendingPast(s: State, t: nat)
    requires Ordered(s) && t < |s.lanes|
    ensures Past(Pending(s.lanes[t]), s.ticks)
  {
    var l := s.lanes[t];
    assert Increasing(Line(l), s.ticks);
    assert forall i :: 0 <= i < |Pending(l)| ==> Line(l)[|l.offered| + i] == Pending(l)[i];
  }

  lemma TickKeepsLane(s: State, heard: set<nat>, names: Names, name: CString, t: nat)
    requires t < |s.lanes| && LaneSafe(s, names, name, t)
    requires Past(Reported(s.log, names, name), s.ticks) && Past(Pending(s.lanes[t]), s.ticks)
    ensures LaneSafe(Next(s, Tick(heard)), names, name, t)
  {
    var reported, p := Reported(s.log, names, name), Pending(s.lanes[t]);
    if t in heard && names(t) == name {
      TickPending(s.lanes[t], s.ticks);
      StrictSnoc(reported + p, s.ticks);
      assert (reported + p) + [s.ticks] == reported + (p + [s.ticks]);
    }
  }

  lemma TickKeepsSafe(s: State, heard: set<nat>, names: Names, name: CString)
    requires Safe(s, names, name) && Alone(s, heard, names, name) && Ordered(s)
    requires Past(Reported(s.log, names, name), s.ticks)
    ensures Safe(Next(s, Tick(heard)), names, name)
  {
    var s' := Next(s, Tick(heard));
    forall t | 0 <= t < |s'.lanes|
      ensures LaneSafe(s', names, name, t)
    {
      assert LaneSafe(s, names, name, t);
      PendingPast(s, t);
      TickKeepsLane(s, heard, names, name, t);
    }
    forall t, u | 0 <= t < |s'.lanes| && 0 <= u < |s'.lanes|
      ensures !Rivals(s', names, name, t, u)
    {
      assert !Rivals(s, names, name, t, u);
    }
  }

  lemma PastNext(s: State, a: Action, names: Names, name: CString)
    requires Ordered(s) && Enabled(s, a) && Past(Reported(s.log, names, name), s.ticks)
    ensures Past(Reported(Next(s, a).log, names, name), Next(s, a).ticks)
  {
    if a.Receive? {
      PendingPast(s, a.lane);
      StepIs(s, a);
      DeliveryPast(s, Next(s, a), a.lane, names, name);
    }
  }

  lemma DeliveryPast(s: State, s': State, t: nat, names: Names, name: CString)
    requires Delivers(s, s', t) && s'.ticks == s.ticks
    requires Past(Reported(s.log, names, name), s.ticks) && Past(Pending(s.lanes[t]), s.ticks)
    ensures Past(Reported(s'.log, names, name), s'.ticks)
  {
    ReportedNext(s.log, Offer(t, Pending(s.lanes[t])[0]), names, name);
  }

  lemma {:induction false} RunIsSafe(actors: nat, actions: seq<Action>, names: Names, name: CString)
    requires Reach(actors, actions).Some? && AlwaysAlone(actors, actions, names, name)
    ensures Safe(Reach(actors, actions).value, names, name)
    ensures Past(Reported(Reach(actors, actions).value.log, names, name), Reach(actors, actions).value.ticks)
  {
    if actions != [] {
      var before, a := actions[..|actions| - 1], actions[|actions| - 1];
      assert forall i :: 0 <= i < |before| ==> before[i] == actions[i] && before[..i] == actions[..i];
      RunIsSafe(actors, before, names, name);
      OrderHolds(actors, before);
      var s := Reach(actors, before).value;
      PastNext(s, a, names, name);
      if a.Tick? {
        TickKeepsSafe(s, a.heard, names, name);
      } else {
        StepKeepsSafe(s, a, names, name);
      }
    }
  }

  /** If a new actor of a target never hears a tick before its predecessor has nothing left to
      report, the reports of the target are in the order of the ticks, none twice. */
  lemma TargetsFollowTicks(actors: nat, actions: seq<Action>, names: Names, name: CString)
    requires Reach(actors, actions).Some? && AlwaysAlone(actors, actions, names, name)
    ensures InOrder(Reach(actors, actions).value, names, name)
    ensures Past(Reported(Reach(actors, actions).value.log, names, name), Reach(actors, actions).value.ticks)
  {
    RunIsSafe(actors, actions, names, name);
  }

  /** The condition is needed: two actors under one name can report a later tick first. */
  lemma SuccessorOvertakes(name: CString) returns (actions: seq<Action>)
    ensures Reach(2, actions).Some? && !InOrder(Reach(2, actions).value, _ => name, name)
  {
    var start, ticks := Start(2), [Tick({0}), Tick({1})];
    OneAction(start, Tick({0}));
    var one := Next(start, Tick({0}));
    FromConcat(start, [Tick({0})], [Tick({1})]);
    OneAction(one, Tick({1}));
    assert [Tick({0})] + [Tick({1})] == ticks;
    var two := Next(one, Tick({1}));
    assert Pending(two.lanes[0]) == [0] && Pending(two.lanes[1]) == [1];
    assert Rivals(two, _ => name, name, 0, 1);
    var more := Disorder(two, _ => name, name);
    FromConcat(start, ticks, more);
    actions := ticks + more;
  }
}
