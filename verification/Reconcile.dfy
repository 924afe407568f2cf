/** The reconciliation of src/sensor.c: one monitoring actor for each running container. */
module Reconcile {
  import opened Text

  /** A monitoring actor owns the target it was created with; one that has stopped by itself
      has released it and stays in the table. */
  datatype Actor = Actor(target: nat, alive: bool)

  type Actors = map<CString, Actor>

  /** The targets that a discovery found, by cgroup path. */
  type Running = map<CString, nat>

  /** The targets owned by the actors of a table. */
  ghost function Owned(actors: Actors): set<nat> {
    set p | p in actors && actors[p].alive :: actors[p].target
  }

  /** No two actors own the same target. */
  ghost predicate OneOwner(actors: Actors) {
    forall p, q | p in actors && q in actors && p != q ::
      actors[p].alive && actors[q].alive ==> actors[p].target != actors[q].target
  }

  ghost predicate OnePath(running: Running) {
    forall p, q | p in running && q in running && p != q :: running[p] != running[q]
  }

  // ----- What a sequence of syncs does to the table

  /** The table after a discovery: actors that were there stay the same, the others are new. */
  function Reconciled(actors: Actors, running: Running): Actors {
    map p | p in running :: if p in actors then actors[p] else Actor(running[p], true)
  }

  datatype Event = Sync(found: Option<Running>) | Exit(path: CString)

  function Next(actors: Actors, e: Event): Actors {
    match e
    case Sync(None) => actors
    case Sync(Some(running)) => Reconciled(actors, running)
    case Exit(path) => if path in actors then actors[path := actors[path].(alive := false)] else actors
  }

  function After(actors: Actors, events: seq<Event>): Actors {
    if events == [] then actors else Next(After(actors, events[..|events| - 1]), events[|events| - 1])
  }

  /** The last discovery that succeeded. */
  function LastFound(events: seq<Event>): Option<Running> {
    if events == [] then None
    else
      match events[|events| - 1]
      case Sync(Some(running)) => Some(running)
      case _ => LastFound(events[..|events| - 1])
  }

  /** Whatever failed in between, the containers monitored are those of the last discovery. */
  lemma {:induction false} KeysAreLastFound(actors: Actors, events: seq<Event>)
    ensures After(actors, events).Keys ==
      match LastFound(events)
      case None => actors.Keys
      case Some(running) => running.Keys
  {
    if events != [] {
      KeysAreLastFound(actors, events[..|events| - 1]);
    }
  }

  /** A container that every discovery finds keeps its actor; in particular an actor that has
      stopped by itself is not replaced as long as its cgroup is there. */
  lemma {:induction false} SameActorStays(actors: Actors, events: seq<Event>, path: CString)
    requires path in actors
    requires forall i :: 0 <= i < |events| && events[i].Sync? && events[i].found.Some? ==> path in events[i].found.value
    ensures path in After(actors, events)
    ensures After(actors, events)[path].target == actors[path].target
    ensures !actors[path].alive ==> !After(actors, events)[path].alive
  {
    if events != [] {
      var before := events[..|events| - 1];
      assert forall i :: 0 <= i < |before| ==> before[i] == events[i];
      SameActorStays(actors, before, path);
    }
  }

  /** A discovery that succeeded without finding the path. */
  predicate Gone(e: Event, path: CString) { e.Sync? && e.found.Some? && path !in e.found.value }

  predicate FoundLast(events: seq<Event>, path: CString) {
    LastFound(events).Some? && path in LastFound(events).value
  }

  /** The actor of the path ended by itself at `i`, and the path has been found ever since. */
  ghost predicate EndedAt(events: seq<Event>, path: CString, i: nat) {
    && i < |events| && events[i] == Exit(path) && FoundLast(events[..i], path)
    && forall j :: i < j < |events| ==> !Gone(events[j], path)
  }

  ghost predicate Ended(events: seq<Event>, path: CString) { exists i: nat :: EndedAt(events, path, i) }

  lemma EndedNext(events: seq<Event>, e: Event, path: CString)
    ensures Ended(events + [e], path) <==>
      (e == Exit(path) && FoundLast(events, path)) || (Ended(events, path) && !Gone(e, path))
  {
    var all := events + [e];
    assert all[..|events|] == events;
    if Ended(all, path) {
      var i: nat :| EndedAt(all, path, i);
      assert all[..i] == events[..i];
      if i < |events| {
        assert !Gone(all[|events|], path);
        assert forall j :: i < j < |events| ==> all[j] == events[j];
        assert EndedAt(events, path, i);
      }
    }
    if Ended(events, path) && !Gone(e, path) {
      var i: nat :| EndedAt(events, path, i);
      assert all[..i] == events[..i];
      assert EndedAt(all, path, i);
    }
    if e == Exit(path) && FoundLast(events, path) {
      assert EndedAt(all, path, |events|);
    }
  }

  /** Exactly when a container in the table is not monitored any more: its actor ended by itself
      and no discovery since has missed the container. */
  lemma {:induction false} DeadExactly(events: seq<Event>, path: CString)
    ensures var actors := After(map[], events);
      (path in actors && !actors[path].alive) <==> Ended(events, path)
  {
    if events != [] {
      var before, last := events[..|events| - 1], events[|events| - 1];
      assert events == before + [last];
      DeadExactly(before, path);
      EndedNext(before, last, path);
      KeysAreLastFound(map[], before);
    }
  }

  /** Found, ended, found again: the container is in the table but no actor monitors it; missed
      once in between, it gets a new actor. */
  lemma StoppedActorStays(path: CString) returns (again: seq<Event>, missed: seq<Event>)
    ensures FoundLast(again, path) && path in After(map[], again) && !After(map[], again)[path].alive
    ensures FoundLast(missed, path) && path in After(map[], missed) && After(map[], missed)[path].alive
  {
    var found, ends := Event.Sync(Some(map[path := 0])), Exit(path);
    var first := [found, ends];
    again, missed := first + [found], first + [Event.Sync(Some(map[])), found];
    assert first[..1] == [found] && [found][..0] == [];
    assert After(map[], [found]) == map[path := Actor(0, true)];
    assert After(map[], first) == map[path := Actor(0, false)];
    assert again[..2] == first && missed[..3][..2] == first && missed[..3][2] == missed[2];
    assert After(map[], missed[..3]) == map[];
  }

  // ----- The table in place, and who owns what

  lemma OwnedWithout(actors: Actors, path: CString)
    requires path in actors && OneOwner(actors)
    ensures OneOwner(actors - {path})
    ensures Owned(actors - {path}) == Owned(actors) - if actors[path].alive then {actors[path].target} else {}
  {
    var rest := actors - {path};
    forall t
      ensures t in Owned(rest) <==> t in Owned(actors) && !(actors[path].alive && t == actors[path].target)
    {
      if t in Owned(actors) {
        var p :| p in actors && actors[p].alive && actors[p].target == t;
        assert p != path ==> p in rest && rest[p] == actors[p];
      }
      if t in Owned(rest) {
        var p :| p in rest && rest[p].alive && rest[p].target == t;
        assert p in actors && actors[p] == rest[p];
      }
    }
  }

  lemma OwnedWith(actors: Actors, path: CString, target: nat)
    requires path !in actors && OneOwner(actors) && target !in Owned(actors)
    ensures OneOwner(actors[path := Actor(target, true)])
    ensures Owned(actors[path := Actor(target, true)]) == Owned(actors) + {target}
  {
    var more := actors[path := Actor(target, true)];
    assert more[path].target == target;
    forall t | t in Owned(actors)
      ensures t in Owned(more)
    {
      var p :| p in actors && actors[p].alive && actors[p].target == t;
      assert p in more && more[p] == actors[p];
    }
  }

  class Sensor {
    var actors: Actors
    /** The targets that exist. Each is destroyed at most once: only a live one can be. */
    ghost var live: set<nat>

    /** Every live target is owned by exactly one actor of the table. */
    ghost predicate Valid()
      reads this
    {
      OneOwner(actors) && live == Owned(actors)
    }

    constructor ()
      ensures Valid() && actors == map[]
    {
      actors, live := map[], {};
    }

    ghost method TargetDestroy(target: nat)
      requires target in live
      modifies this`live
      ensures live == old(live) - {target}
    {
      live := live - {target};
    }

    /** zactor_destroy: the actor ends and its configuration goes with its target, unless it had
        ended before. */
    method DeleteActor(path: CString, ghost others: set<nat>)
      requires path in actors && OneOwner(actors) && live == Owned(actors) + others && others !! Owned(actors)
      modifies this
      ensures actors == old(actors) - {path}
      ensures OneOwner(actors) && live == Owned(actors) + others && others !! Owned(actors)
    {
      OwnedWithout(actors, path);
      if actors[path].alive {
        TargetDestroy(actors[path].target);
      }
      actors := actors - {path};
    }

    /** An actor that cannot start, or is told to stop, releases its target by itself. */
    method ActorExits(path: CString)
      requires Valid() && path in actors && actors[path].alive
      modifies this
      ensures Valid() && actors == Next(old(actors), Exit(path))
    {
      var actor := actors[path];
      OwnedWithout(actors, path);
      TargetDestroy(actor.target);
      actors := actors[path := actor.(alive := false)];
      ghost var rest := old(actors) - {path};
      assert forall p :: p in actors && actors[p].alive ==> p in rest && rest[p] == actors[p];
      assert forall p :: p in rest ==> p in actors && actors[p] == rest[p];
    }

    /** sync_cgroups_running_monitored. The targets found were created by the discovery; each of
        them ends up with an actor or destroyed, and so does each target owned before. */
    method Sync(found: Option<Running>)
      requires OneOwner(actors)
      requires found.None? ==> live == Owned(actors)
      requires found.Some? ==>
        && OnePath(found.value) && found.value.Values !! Owned(actors)
        && live == Owned(actors) + found.value.Values
      modifies this
      ensures Valid()
      ensures actors == Next(old(actors), Event.Sync(found))
    {
      if found.None? {
        return;
      }
      var running := found.value;
      StopDead(running);
      StartNew(running, old(actors));
    }

    /** The first loop, over the actors there were at its start. */
    method StopDead(running: Running)
      requires OneOwner(actors) && running.Values !! Owned(actors)
      requires live == Owned(actors) + running.Values
      modifies this
      ensures OneOwner(actors) && running.Values !! Owned(actors)
      ensures live == Owned(actors) + running.Values
      ensures actors == map p | p in old(actors) && p in running :: old(actors)[p]
    {
      var todo := actors.Keys;
      while todo != {}
        invariant todo <= old(actors.Keys)
        invariant OneOwner(actors) && running.Values !! Owned(actors)
        invariant live == Owned(actors) + running.Values
        invariant actors == map p | p in old(actors) && (p in running || p in todo) :: old(actors)[p]
        decreases todo
      {
        var path :| path in todo;
        todo := todo - {path};
        if path !in running {
          DeleteActor(path, running.Values);
        }
      }
    }

    /** The second loop: new actors take their targets, and the targets of the containers that
        are monitored already are destroyed with the table of running ones. */
    method StartNew(running: Running, ghost before: Actors)
      requires OneOwner(actors) && OnePath(running) && running.Values !! Owned(actors)
      requires live == Owned(actors) + running.Values
      requires actors == map p | p in before && p in running :: before[p]
      modifies this
      ensures Valid()
      ensures actors == Reconciled(before, running)
    {
      var todo := running.Keys;
      while todo != {}
        invariant todo <= running.Keys
        invariant OneOwner(actors) && Left(running, todo) !! Owned(actors)
        invariant live == Owned(actors) + Left(running, todo)
        invariant actors == Partly(before, running, todo)
        decreases todo
      {
        var path :| path in todo;
        LeftWithout(running, todo, path);
        PartlyNext(before, running, todo, path);
        StartOrFree(path, running[path], Left(running, todo - {path}));
        todo := todo - {path};
      }
    }

    /** One running container: a new actor takes its target, or the target is destroyed. */
    method StartOrFree(path: CString, target: nat, ghost others: set<nat>)
      requires OneOwner(actors) && live == Owned(actors) + others + {target}
      requires target !in Owned(actors) + others && others !! Owned(actors)
      modifies this
      ensures OneOwner(actors) && live == Owned(actors) + others && others !! Owned(actors)
      ensures actors == if path in old(actors) then old(actors) else old(actors)[path := Actor(target, true)]
    {
      if path !in actors {
        OwnedWith(actors, path, target);
        actors := actors[path := Actor(target, true)];
      } else {
        TargetDestroy(target);
      }
    }
  }

  /** The table when the containers at `todo` have not been looked at. */
  ghost function Partly(before: Actors, running: Running, todo: set<CString>): Actors {
    map p | p in running && (p in before || p !in todo) :: if p in before then before[p] else Actor(running[p], true)
  }

  lemma PartlyNext(before: Actors, running: Running, todo: set<CString>, path: CString)
    requires path in todo && path in running
    ensures var t := Partly(before, running, todo);
      Partly(before, running, todo - {path}) == if path in t then t else t[path := Actor(running[path], true)]
  {}

  /** The targets found at these paths. */
  ghost function Left(running: Running, paths: set<CString>): set<nat>
    requires paths <= running.Keys
  {
    set p | p in paths :: running[p]
  }

  lemma LeftWithout(running: Running, paths: set<CString>, path: CString)
    requires paths <= running.Keys && path in paths && OnePath(running)
    ensures Left(running, paths) == Left(running, paths - {path}) + {running[path]}
    ensures running[path] !in Left(running, paths - {path})
  {}
}
