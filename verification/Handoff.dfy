/** The way of a payload from the clock to the storage: the tick loop of src/sensor.c, the
    monitoring actors of src/perf.c and the reporting actor of src/report.c, up to shutdown. */
module Handoff {
  import opened Text

  /** A payload of one actor for one tick; `id` tells payloads apart. */
  datatype Payload = Payload(id: nat, tick: nat)

  /** One monitoring actor: the ticks it has not looked at, the payload it is building, those on
      the way to the reporting actor, and the ticks whose reports were offered to the storage. */
  datatype Lane = Lane(inbox: seq<nat>, building: Option<Payload>, flight: seq<Payload>, offered: seq<nat>)

  /** A report offered to the storage. */
  datatype Offer = Offer(lane: nat, tick: nat)

  /** Ticks published, the actors, the payload that is being stored, the payloads destroyed, how
      many were ever created, and all reports offered to the storage. */
  datatype State = State(
    ticks: nat, lanes: seq<Lane>, storing: Option<Payload>, freed: seq<nat>, created: nat, log: seq<Offer>)

  /** A tick reaches the actors in `heard`: a slow subscriber may miss it. The reporting actor
      takes the payloads of one actor in order, and those of several in any order. */
  datatype Action =
    | Tick(heard: set<nat>)
    | Create(lane: nat)
    | CreateFails(lane: nat)
    | Send(lane: nat)
    | Abort(lane: nat)
    | Receive(lane: nat)
    | Stored

  predicate Enabled(s: State, a: Action) {
    match a
    case Tick(_) => true
    case Create(t) => t < |s.lanes| && s.lanes[t].building.None? && s.lanes[t].inbox != []
    case CreateFails(t) => t < |s.lanes| && s.lanes[t].building.None? && s.lanes[t].inbox != []
    case Send(t) => t < |s.lanes| && s.lanes[t].building.Some?
    case Abort(t) => t < |s.lanes| && s.lanes[t].building.Some?
    case Receive(t) => t < |s.lanes| && s.storing.None? && s.lanes[t].flight != []
    case Stored => s.storing.Some?
  }

  function Hear(lanes: seq<Lane>, heard: set<nat>, tick: nat): seq<Lane> {
    seq(|lanes|, t requires 0 <= t < |lanes| =>
      if t in heard then lanes[t].(inbox := lanes[t].inbox + [tick]) else lanes[t])
  }

  function Next(s: State, a: Action): State
    requires Enabled(s, a)
  {
    match a
    case Tick(heard) => s.(ticks := s.ticks + 1, lanes := Hear(s.lanes, heard, s.ticks))
    case Create(t) =>
      var l := s.lanes[t];
      s.(lanes := s.lanes[t := l.(inbox := l.inbox[1..], building := Some(Payload(s.created, l.inbox[0])))],
         created := s.created + 1)
    case CreateFails(t) => s.(lanes := s.lanes[t := s.lanes[t].(inbox := s.lanes[t].inbox[1..])])
    case Send(t) =>
      var l := s.lanes[t];
      s.(lanes := s.lanes[t := l.(building := None, flight := l.flight + [l.building.value])])
    case Abort(t) =>
      var l := s.lanes[t];
      s.(lanes := s.lanes[t := l.(building := None)], freed := s.freed + [l.building.value.id])
    case Receive(t) =>
      var l := s.lanes[t];
      s.(lanes := s.lanes[t := l.(flight := l.flight[1..], offered := l.offered + [l.flight[0].tick])],
         storing := Some(l.flight[0]), log := s.log + [Offer(t, l.flight[0].tick)])
    case Stored => s.(storing := None, freed := s.freed + [s.storing.value.id])
  }

  function Start(actors: nat): State {
    State(0, seq(actors, _ => Lane([], None, [], [])), None, [], 0, [])
  }

  /** The state after a run of actions from a state, if each was enabled in its turn. */
  function From(s: State, actions: seq<Action>): Option<State> {
    if actions == [] then Some(s)
    else
      match From(s, actions[..|actions| - 1])
      case None => None
      case Some(r) =>
        var a := actions[|actions| - 1];
        if Enabled(r, a) then Some(Next(r, a)) else None
  }

  function Reach(actors: nat, actions: seq<Action>): Option<State> { From(Start(actors), actions) }

  // ----- The order of reports

  function TicksOf(payloads: seq<Payload>): seq<nat> {
    seq(|payloads|, i requires 0 <= i < |payloads| => payloads[i].tick)
  }

  function BeingBuilt(l: Lane): seq<nat> {
    if l.building.Some? then [l.building.value.tick] else []
  }

  /** The ticks that an actor may still report, oldest first. */
  function Pending(l: Lane): seq<nat> { TicksOf(l.flight) + BeingBuilt(l) + l.inbox }

  /** Every tick that concerns an actor, oldest first. */
  function Line(l: Lane): seq<nat> { l.offered + Pending(l) }

  ghost predicate Increasing(line: seq<nat>, bound: nat) {
    && (forall i, j :: 0 <= i < j < |line| ==> line[i] < line[j])
    && (forall i :: 0 <= i < |line| ==> line[i] < bound)
  }

  ghost predicate Ordered(s: State) {
    forall t :: 0 <= t < |s.lanes| ==> Increasing(Line(s.lanes[t]), s.ticks)
  }

  /** A step of an actor keeps its line or takes one tick out of it. */
  ghost predicate Thinner(l: Lane, l': Lane) {
    Line(l') == Line(l) || exists k :: 0 <= k < |Line(l)| && Line(l') == Line(l)[..k] + Line(l)[k + 1..]
  }

  lemma ThinnerIncreases(l: Lane, l': Lane, bound: nat)
    requires Thinner(l, l') && Increasing(Line(l), bound)
    ensures Increasing(Line(l'), bound)
  {
    if Line(l') != Line(l) {
      var k :| 0 <= k < |Line(l)| && Line(l') == Line(l)[..k] + Line(l)[k + 1..];
      RemovalIncreases(Line(l), k, bound);
    }
  }

  lemma RemovalIncreases(line: seq<nat>, k: nat, bound: nat)
    requires k < |line| && Increasing(line, bound)
    ensures Increasing(line[..k] + line[k + 1..], bound)
  {
    var rest := line[..k] + line[k + 1..];
    forall i | 0 <= i < |rest|
      ensures rest[i] == if i < k then line[i] else line[i + 1]
    {}
  }

  lemma TakesTick(l: Lane, id: nat)
    requires l.building.None? && l.inbox != []
    ensures Thinner(l, l.(inbox := l.inbox[1..], building := Some(Payload(id, l.inbox[0]))))
    ensures Thinner(l, l.(inbox := l.inbox[1..]))
  {
    var front := l.offered + TicksOf(l.flight);
    assert l.inbox == [l.inbox[0]] + l.inbox[1..];
    assert Line(l.(inbox := l.inbox[1..], building := Some(Payload(id, l.inbox[0])))) == Line(l);
    assert Line(l.(inbox := l.inbox[1..])) == Line(l)[..|front|] + Line(l)[|front| + 1..];
  }

  lemma SendsOrAborts(l: Lane)
    requires l.building.Some?
    ensures Thinner(l, l.(building := None, flight := l.flight + [l.building.value]))
    ensures Thinner(l, l.(building := None))
  {
    var front := l.offered + TicksOf(l.flight);
    assert TicksOf(l.flight + [l.building.value]) == TicksOf(l.flight) + [l.building.value.tick];
    assert Line(l.(building := None, flight := l.flight + [l.building.value])) == Line(l);
    assert Line(l.(building := None)) == Line(l)[..|front|] + Line(l)[|front| + 1..];
  }

  lemma IsReceived(l: Lane)
    requires l.flight != []
    ensures Thinner(l, l.(flight := l.flight[1..], offered := l.offered + [l.flight[0].tick]))
  {
    assert TicksOf(l.flight) == [l.flight[0].tick] + TicksOf(l.flight[1..]);
    assert Line(l.(flight := l.flight[1..], offered := l.offered + [l.flight[0].tick])) == Line(l);
  }

  lemma HearKeepsOrder(s: State, heard: set<nat>)
    requires Ordered(s)
    ensures Ordered(Next(s, Tick(heard)))
  {
    var s' := Next(s, Tick(heard));
    forall t | 0 <= t < |s'.lanes|
      ensures Increasing(Line(s'.lanes[t]), s'.ticks)
    {
      var l := s.lanes[t];
      assert Increasing(Line(l), s.ticks);
      if t in heard {
        assert Line(s'.lanes[t]) == Line(l) + [s.ticks];
      }
    }
  }

  lemma LaneKeepsOrder(s: State, a: Action)
    requires Ordered(s) && Enabled(s, a) && !a.Tick? && !a.Stored?
    requires Thinner(s.lanes[a.lane], Next(s, a).lanes[a.lane])
    ensures Ordered(Next(s, a))
  {
    ThinnerIncreases(s.lanes[a.lane], Next(s, a).lanes[a.lane], s.ticks);
  }

  lemma StepKeepsOrder(s: State, a: Action)
    requires Ordered(s) && Enabled(s, a)
    ensures Ordered(Next(s, a))
  {
    match a {
      case Tick(heard) => HearKeepsOrder(s, heard);
      case Stored =>
      case Receive(t) => IsReceived(s.lanes[t]); LaneKeepsOrder(s, a);
      case Send(t) => SendsOrAborts(s.lanes[t]); LaneKeepsOrder(s, a);
      case Abort(t) => SendsOrAborts(s.lanes[t]); LaneKeepsOrder(s, a);
      case Create(t) => TakesTick(s.lanes[t], s.created); LaneKeepsOrder(s, a);
      case CreateFails(t) => TakesTick(s.lanes[t], s.created); LaneKeepsOrder(s, a);
    }
  }

  lemma {:induction false} OrderHolds(actors: nat, actions: seq<Action>)
    ensures var r := Reach(actors, actions); r.Some? ==> Ordered(r.value)
  {
    if actions != [] {
      var before := Reach(actors, actions[..|actions| - 1]);
      OrderHolds(actors, actions[..|actions| - 1]);
      if before.Some? && Enabled(before.value, actions[|actions| - 1]) {
        StepKeepsOrder(before.value, actions[|actions| - 1]);
      }
    }
  }

  /** The reports of one actor that are offered to the storage are of published ticks, in the order in
      which they were published, and no tick is reported twice. */
  lemma ReportsFollowTicks(actors: nat, actions: seq<Action>, t: nat)
    requires Reach(actors, actions).Some? && t < |Reach(actors, actions).value.lanes|
    ensures var s := Reach(actors, actions).value; Increasing(s.lanes[t].offered, s.ticks)
  {
    OrderHolds(actors, actions);
    var s := Reach(actors, actions).value;
    var l := s.lanes[t];
    assert Increasing(Line(l), s.ticks);
    assert forall i :: 0 <= i < |l.offered| ==> Line(l)[i] == l.offered[i];
  }

  // ----- The place of every payload

  function Held(p: Option<Payload>, id: nat): nat {
    if p.Some? && p.value.id == id then 1 else 0
  }

  function InFlight(payloads: seq<Payload>, id: nat): nat {
    if payloads == [] then 0 else InFlight(payloads[1..], id) + Held(Some(payloads[0]), id)
  }

  function Freed(ids: seq<nat>, id: nat): nat {
    if ids == [] then 0 else Freed(ids[1..], id) + if ids[0] == id then 1 else 0
  }

  function InLane(l: Lane, id: nat): nat { Held(l.building, id) + InFlight(l.flight, id) }

  function InLanes(lanes: seq<Lane>, id: nat): nat {
    if lanes == [] then 0 else InLane(lanes[0], id) + InLanes(lanes[1..], id)
  }

  /** How often a payload is being built, on the way, being stored or destroyed. */
  function Everywhere(s: State, id: nat): nat {
    InLanes(s.lanes, id) + Held(s.storing, id) + Freed(s.freed, id)
  }

  /** Every payload created is in exactly one place, once, and no other payload is anywhere. */
  ghost predicate OnePlace(s: State) {
    forall id: nat :: Everywhere(s, id) == if id < s.created then 1 else 0
  }

  lemma {:induction false} OneMoreInFlight(payloads: seq<Payload>, p: Payload, id: nat)
    ensures InFlight(payloads + [p], id) == InFlight(payloads, id) + Held(Some(p), id)
  {
    if payloads == [] {
      assert payloads + [p] == [p];
    } else {
      assert (payloads + [p])[1..] == payloads[1..] + [p];
      OneMoreInFlight(payloads[1..], p, id);
    }
  }

  lemma {:induction false} OneMoreFreed(ids: seq<nat>, x: nat, id: nat)
    ensures Freed(ids + [x], id) == Freed(ids, id) + if x == id then 1 else 0
  {
    if ids == [] {
      assert ids + [x] == [x];
    } else {
      assert (ids + [x])[1..] == ids[1..] + [x];
      OneMoreFreed(ids[1..], x, id);
    }
  }

  lemma {:induction false} LaneChanges(lanes: seq<Lane>, t: nat, l: Lane, id: nat)
    requires t < |lanes|
    ensures InLanes(lanes[t := l], id) + InLane(lanes[t], id) == InLanes(lanes, id) + InLane(l, id)
  {
    if t > 0 {
      assert lanes[t := l][1..] == lanes[1..][t - 1 := l];
      LaneChanges(lanes[1..], t - 1, l, id);
    } else {
      assert lanes[t := l][1..] == lanes[1..];
    }
  }

  lemma {:induction false} SameLanes(a: seq<Lane>, b: seq<Lane>, id: nat)
    requires |a| == |b| && forall t :: 0 <= t < |a| ==> InLane(a[t], id) == InLane(b[t], id)
    ensures InLanes(a, id) == InLanes(b, id)
  {
    if a != [] {
      SameLanes(a[1..], b[1..], id);
    }
  }

  /** A step moves payloads from place to place; only creation adds one. */
  lemma StepMoves(s: State, a: Action, id: nat)
    requires Enabled(s, a)
    ensures Everywhere(Next(s, a), id) == Everywhere(s, id) + if a.Create? && id == s.created then 1 else 0
  {
    match a {
      case Tick(heard) => SameLanes(Next(s, a).lanes, s.lanes, id);
      case Stored => OneMoreFreed(s.freed, s.storing.value.id, id);
      case Send(t) =>
        OneMoreInFlight(s.lanes[t].flight, s.lanes[t].building.value, id);
        LaneChanges(s.lanes, t, Next(s, a).lanes[t], id);
      case Abort(t) =>
        OneMoreFreed(s.freed, s.lanes[t].building.value.id, id);
        LaneChanges(s.lanes, t, Next(s, a).lanes[t], id);
      case _ => LaneChanges(s.lanes, a.lane, Next(s, a).lanes[a.lane], id);
    }
  }

  lemma {:induction false} NothingAtStart(actors: nat, id: nat)
    ensures InLanes(Start(actors).lanes, id) == 0
  {
    if actors > 0 {
      NothingAtStart(actors - 1, id);
      assert Start(actors).lanes[1..] == Start(actors - 1).lanes;
    }
  }

  /** On every run each payload is being built, on the way, being stored or destroyed, in exactly
      one of these places; so none is destroyed twice, and none is lost. */
  lemma {:induction false} PayloadsHaveOnePlace(actors: nat, actions: seq<Action>)
    ensures var r := Reach(actors, actions); r.Some? ==> OnePlace(r.value)
  {
    if Reach(actors, actions).Some? {
      if actions != [] {
        PayloadsHaveOnePlace(actors, actions[..|actions| - 1]);
      }
      forall id: nat
        ensures Everywhere(Reach(actors, actions).value, id) == if id < Reach(actors, actions).value.created then 1 else 0
      {
        if actions == [] {
          NothingAtStart(actors, id);
        } else {
          StepMoves(Reach(actors, actions[..|actions| - 1]).value, actions[|actions| - 1], id);
        }
      }
    }
  }

  lemma {:induction false} FreedTwice(ids: seq<nat>, i: nat, j: nat)
    requires i < j < |ids| && ids[i] == ids[j]
    ensures Freed(ids, ids[i]) >= 2
  {
    if i > 0 {
      FreedTwice(ids[1..], i - 1, j - 1);
    } else {
      FreedSome(ids[1..], j - 1);
    }
  }

  lemma {:induction false} FreedSome(ids: seq<nat>, i: nat)
    requires i < |ids|
    ensures Freed(ids, ids[i]) >= 1
  {
    if i > 0 {
      FreedSome(ids[1..], i - 1);
    }
  }

  /** Nothing is destroyed twice. */
  lemma FreedOnce(actors: nat, actions: seq<Action>, i: nat, j: nat)
    requires Reach(actors, actions).Some?
    requires i < j < |Reach(actors, actions).value.freed|
    ensures Reach(actors, actions).value.freed[i] != Reach(actors, actions).value.freed[j]
  {
    var s := Reach(actors, actions).value;
    PayloadsHaveOnePlace(actors, actions);
    assert Everywhere(s, s.freed[i]) <= 1;
    if s.freed[i] == s.freed[j] {
      FreedTwice(s.freed, i, j);
    }
  }

  // ----- The place of every tick

  /** How many ticks reached an actor, and how many it lost to a failure. */
  function Heard(actions: seq<Action>, t: nat): nat {
    if actions == [] then 0
    else
      var a := actions[|actions| - 1];
      Heard(actions[..|actions| - 1], t) + if a.Tick? && t in a.heard then 1 else 0
  }

  function Lost(actions: seq<Action>, t: nat): nat {
    if actions == [] then 0
    else
      var a := actions[|actions| - 1];
      Lost(actions[..|actions| - 1], t) + if (a.CreateFails? || a.Abort?) && a.lane == t then 1 else 0
  }

  lemma StepCounts(s: State, a: Action, t: nat)
    requires Enabled(s, a) && t < |s.lanes|
    ensures |Next(s, a).lanes| == |s.lanes|
    ensures |Line(Next(s, a).lanes[t])| + (if (a.CreateFails? || a.Abort?) && a.lane == t then 1 else 0)
      == |Line(s.lanes[t])| + (if a.Tick? && t in a.heard then 1 else 0)
  {}

  /** On every run, every tick that an actor heard has been offered to the storage, is waiting or on
      its way, or was lost in one of the failures of that actor: so none is lost without one. */
  lemma {:induction false} TicksAreConserved(actors: nat, actions: seq<Action>, t: nat)
    requires Reach(actors, actions).Some? && t < actors
    ensures var s := Reach(actors, actions).value;
      |s.lanes| == actors && |s.lanes[t].offered| + |Pending(s.lanes[t])| + Lost(actions, t) == Heard(actions, t)
  {
    if actions != [] {
      var before, a := actions[..|actions| - 1], actions[|actions| - 1];
      TicksAreConserved(actors, before, t);
      StepCounts(Reach(actors, before).value, a, t);
    }
  }

  /** A tick can be lost in both ways: with no payload created for it, or with one that is destroyed
      before it is sent. */
  lemma TicksCanBeLost() returns (created: seq<Action>, aborted: seq<Action>)
    ensures Reach(1, created).Some? && Heard(created, 0) == Lost(created, 0) == 1
    ensures Reach(1, created).value.created == 0
    ensures Reach(1, aborted).Some? && Heard(aborted, 0) == Lost(aborted, 0) == 1
    ensures Reach(1, aborted).value.freed == [0]
  {
    var heard := [Tick({0})];
    created, aborted := heard + [CreateFails(0)], heard + [Create(0)] + [Abort(0)];
    assert heard[..0] == [] && created[..1] == heard;
    assert aborted[..2] == heard + [Create(0)] && (heard + [Create(0)])[..1] == heard;
    assert Reach(1, []) == Some(Start(1));
    assert Reach(1, heard) == Some(Next(Start(1), Tick({0})));
    var m := Next(Start(1), Tick({0}));
    assert m.lanes[0].inbox == [0];
    assert Reach(1, heard + [Create(0)]) == Some(Next(m, Create(0)));
  }
}
