/** populate_payload and handle_ticker of src/perf.c, and the containers they create: each is
    handed on with the payload or destroyed once. */
module Populate {
  import opened Text
  import opened Payloads
  import opened Sampling

  // ----- Containers

  /** The containers that exist: only one that exists can be freed. A container together with
      everything inserted into it, at any depth, is a set of containers. */
  class Ledger {
    ghost var live: set<nat>
    ghost var next: nat

    ghost predicate Valid()
      reads this
    {
      forall id :: id in live ==> id < next
    }

    constructor ()
      ensures Valid() && live == {}
    {
      live, next := {}, 0;
    }

    ghost method Create() returns (id: nat)
      requires Valid()
      modifies this
      ensures Valid() && id !in old(live) && live == old(live) + {id}
    {
      id := next;
      live, next := live + {id}, next + 1;
    }

    ghost method Free(id: nat)
      requires Valid() && id in live
      modifies this
      ensures Valid() && live == old(live) - {id}
    {
      live := live - {id};
    }

    /** Destroying a container destroys what was inserted into it, one by one. */
    ghost method Destroy(box: set<nat>)
      requires Valid() && box <= live
      modifies this
      ensures Valid() && live == old(live) - box
      decreases box
    {
      if box != {} {
        var id: nat :| id in box;
        Free(id);
        Destroy(box - {id});
      }
    }
  }

  /** The containers that exist are those from before and these. */
  ghost predicate Owns(before: set<nat>, live: set<nat>, box: set<nat>) {
    box !! before && live == before + box
  }

  lemma OwnsMore(before: set<nat>, mid: set<nat>, live: set<nat>, box: set<nat>, more: set<nat>)
    requires Owns(before, mid, box) && Owns(mid, live, more)
    ensures Owns(before, live, box + more) && box !! more && box <= live
  {}

  lemma KeepsBuffer(before: set<nat>, mid: set<nat>, live: set<nat>, buffer: nat, box: set<nat>, more: set<nat>)
    requires buffer !in box && Owns(before, mid, box + {buffer}) && Owns(mid, live, more)
    ensures buffer !in box + more && Owns(before, live, box + more + {buffer})
  {}

  lemma OwnsNothing(before: set<nat>, live: set<nat>, box: set<nat>, part: set<nat>)
    requires Owns(before, live, box) && part <= box
    ensures live - part - (box - part) == before && part <= live && box - part <= live - part
  {}

  // ----- A tick

  class Monitor {
    const perf: Perf
    const ledger: Ledger
    var readCount: nat

    constructor (perf: Perf, ledger: Ledger)
      ensures this.perf == perf && this.ledger == ledger && readCount == 0
    {
      this.perf, this.ledger, readCount := perf, ledger, 0;
    }

    /** The CPU loop: the data of one package. */
    method PopulatePkg(events: seq<CString>, p: Package) returns (pkg: Option<Pkg>, ghost box: set<nat>)
      requires ledger.Valid()
      modifies this`readCount, ledger
      ensures ledger.Valid()
      ensures pkg.None? ==> CpusData(perf, old(readCount), events, p.cpus, |p.cpus|) == None
      ensures pkg.Some? ==> pkg.value.id == p.id
      ensures pkg.Some? ==> CpusData(perf, old(readCount), events, p.cpus, |p.cpus|) == Some(pkg.value.cpus)
      ensures pkg.Some? ==> readCount == old(readCount) + |p.cpus|
      ensures pkg.Some? ==> Owns(old(ledger.live), ledger.live, box)
      ensures pkg.None? ==> ledger.live == old(ledger.live)
    {
      ghost var pkgData := ledger.Create();
      box := {pkgData};
      var cpus: Option<seq<Cpu>> := Some([]);
      var c := 0;
      while c < |p.cpus|
        invariant c <= |p.cpus| && readCount == old(readCount) + c
        invariant cpus.Some? && CpusData(perf, old(readCount), events, p.cpus, c) == cpus
        invariant ledger.Valid() && Owns(old(ledger.live), ledger.live, box)
      {
        cpus, box := PopulateCpu(events, p, c, cpus.value, old(readCount), old(ledger.live), box);
        if cpus.None? {
          return None, {};
        }
        c := c + 1;
      }
      return Some(Pkg(p.id, cpus.value)), box;
    }

    /** One CPU. A read that fails destroys its container and the package with the CPUs inserted
        so far. */
    method PopulateCpu(events: seq<CString>, p: Package, c: nat, cpus: seq<Cpu>,
                       ghost k: nat, ghost before: set<nat>, ghost box: set<nat>)
      returns (more: Option<seq<Cpu>>, ghost box': set<nat>)
      requires c < |p.cpus| && readCount == k + c && CpusData(perf, k, events, p.cpus, c) == Some(cpus)
      requires ledger.Valid() && Owns(before, ledger.live, box)
      modifies this`readCount, ledger
      ensures ledger.Valid()
      ensures more.None? ==> CpusData(perf, k, events, p.cpus, |p.cpus|) == None && ledger.live == before
      ensures more.Some? ==> CpusData(perf, k, events, p.cpus, c + 1) == more
      ensures more.Some? ==> readCount == k + c + 1 && Owns(before, ledger.live, box')
    {
      ghost var mid := ledger.live;
      ghost var cpuData := ledger.Create();
      box' := box + {cpuData};
      OwnsMore(before, mid, ledger.live, box, {cpuData});
      var read := ReadCpu(perf, readCount, events);
      CpusStep(perf, k, events, p.cpus, c, cpus);
      readCount := readCount + 1;
      if read.None? {
        DiscardTwo(cpuData, box, before);
        return None, {};
      }
      more := Some(cpus + [Cpu(p.cpus[c], Filed(events, read.value, |events|))]);
    }

    /** A read failed: a container is freed, and then another with what was inserted into it. */
    ghost method DiscardTwo(id: nat, box: set<nat>, before: set<nat>)
      requires ledger.Valid() && id !in box && Owns(before, ledger.live, box + {id})
      modifies ledger
      ensures ledger.Valid() && ledger.live == before
    {
      OwnsNothing(before, ledger.live, box + {id}, {id});
      assert box + {id} - {id} == box;
      ledger.Free(id);
      ledger.Destroy(box);
    }

    /** The package loop: the data of one group, with the read buffer its CPUs share. */
    method PopulateGroup(g: GroupContext) returns (group: Option<Group>, ghost box: set<nat>)
      requires ledger.Valid()
      modifies this`readCount, ledger
      ensures ledger.Valid()
      ensures group.None? ==> PkgsData(perf, old(readCount), g.events, g.pkgs, |g.pkgs|) == None
      ensures group.Some? ==> group.value.name == g.name
      ensures group.Some? ==> PkgsData(perf, old(readCount), g.events, g.pkgs, |g.pkgs|) == Some(group.value.pkgs)
      ensures group.Some? ==> readCount == old(readCount) + CpusBefore(g.pkgs, |g.pkgs|)
      ensures group.Some? ==> Owns(old(ledger.live), ledger.live, box)
      ensures group.None? ==> ledger.live == old(ledger.live)
    {
      ghost var groupData := ledger.Create();
      ghost var buffer := ledger.Create();
      box := {groupData};
      var pkgs: Option<seq<Pkg>> := Some([]);
      var p := 0;
      while p < |g.pkgs|
        invariant p <= |g.pkgs| && readCount == old(readCount) + CpusBefore(g.pkgs, p)
        invariant pkgs.Some? && PkgsData(perf, old(readCount), g.events, g.pkgs, p) == pkgs
        invariant ledger.Valid() && buffer !in box && Owns(old(ledger.live), ledger.live, box + {buffer})
      {
        pkgs, box := PopulateNext(g, p, pkgs.value, old(readCount), old(ledger.live), buffer, box);
        if pkgs.None? {
          return None, {};
        }
        p := p + 1;
      }
      FreeLast(buffer, box, old(ledger.live));
      return Some(Group(g.name, pkgs.value)), box;
    }

    ghost method FreeLast(buffer: nat, box: set<nat>, before: set<nat>)
      requires ledger.Valid() && buffer !in box && Owns(before, ledger.live, box + {buffer})
      modifies ledger
      ensures ledger.Valid() && Owns(before, ledger.live, box)
    {
      ledger.Free(buffer);
    }

    /** One package. A read that fails also frees the buffer, and destroys the group with the
        packages inserted so far. */
    method PopulateNext(g: GroupContext, p: nat, pkgs: seq<Pkg>,
                        ghost k: nat, ghost before: set<nat>, ghost buffer: nat, ghost box: set<nat>)
      returns (more: Option<seq<Pkg>>, ghost box': set<nat>)
      requires p < |g.pkgs| && readCount == k + CpusBefore(g.pkgs, p) && PkgsData(perf, k, g.events, g.pkgs, p) == Some(pkgs)
      requires ledger.Valid() && buffer !in box && Owns(before, ledger.live, box + {buffer})
      modifies this`readCount, ledger
      ensures ledger.Valid()
      ensures more.None? ==> PkgsData(perf, k, g.events, g.pkgs, |g.pkgs|) == None && ledger.live == before
      ensures more.Some? ==> PkgsData(perf, k, g.events, g.pkgs, p + 1) == more
      ensures more.Some? ==> readCount == k + CpusBefore(g.pkgs, p + 1)
      ensures more.Some? ==> buffer !in box' && Owns(before, ledger.live, box' + {buffer})
    {
      ghost var mid := ledger.live;
      var pkg;
      ghost var pkgBox;
      pkg, pkgBox := PopulatePkg(g.events, g.pkgs[p]);
      PkgsStep(perf, k, g.events, g.pkgs, p, pkgs, pkg);
      if pkg.None? {
        DiscardTwo(buffer, box, before);
        return None, {};
      }
      KeepsBuffer(before, mid, ledger.live, buffer, box, pkgBox);
      return Some(pkgs + [pkg.value]), box + pkgBox;
    }

    /** populate_payload: the groups inserted into the payload before a failure stay in it. */
    method PopulatePayload(contexts: seq<GroupContext>) returns (groups: Option<seq<Group>>, ghost held: set<nat>)
      requires ledger.Valid()
      modifies this`readCount, ledger
      ensures ledger.Valid()
      ensures groups == GroupsData(perf, old(readCount), contexts, |contexts|)
      ensures Owns(old(ledger.live), ledger.live, held)
    {
      held := {};
      var data: seq<Group> := [];
      var g := 0;
      while g < |contexts|
        invariant g <= |contexts| && readCount == old(readCount) + ReadsBefore(contexts, g)
        invariant GroupsData(perf, old(readCount), contexts, g) == Some(data)
        invariant ledger.Valid() && Owns(old(ledger.live), ledger.live, held)
      {
        ghost var mid := ledger.live;
        var group;
        ghost var groupBox;
        group, groupBox := PopulateGroup(contexts[g]);
        GroupsStep(perf, old(readCount), contexts, g, data, group);
        if group.None? {
          return None, held;
        }
        OwnsMore(old(ledger.live), mid, ledger.live, held, groupBox);
        data := data + [group.value];
        held := held + groupBox;
        g := g + 1;
      }
      return Some(data), held;
    }

    /** handle_ticker: the payload is sent with everything in it, or everything created for it is
        destroyed. */
    method HandleTicker(contexts: seq<GroupContext>, timestamp: U64, target: CString)
      returns (sent: Option<Payload>, ghost box: set<nat>)
      requires ledger.Valid()
      modifies this`readCount, ledger
      ensures ledger.Valid()
      ensures sent == match GroupsData(perf, old(readCount), contexts, |contexts|)
        case None => None
        case Some(groups) => Some(Payload(timestamp, target, groups))
      ensures sent.Some? ==> SampledAt(perf, old(readCount), contexts, timestamp, target, sent.value)
      ensures sent.None? ==> forall payload :: !SampledAt(perf, old(readCount), contexts, timestamp, target, payload)
      ensures sent.Some? ==> Owns(old(ledger.live), ledger.live, box)
      ensures sent.None? ==> ledger.live == old(ledger.live)
    {
      ghost var payload := ledger.Create();
      var groups;
      groups, box := PopulatePayload(contexts);
      SampledExactly(perf, old(readCount), contexts, timestamp, target);
      box := box + {payload};
      if groups.None? {
        ledger.Destroy(box);
        return None, {};
      }
      return Some(Payload(timestamp, target, groups.value)), box;
    }
  }

  /** The payload of a tick: its time and target, and the nested data of all groups, each CPU showing
      the read that was made for it, of which the first is number k. */
  ghost predicate SampledAt(perf: Perf, k: nat, contexts: seq<GroupContext>, timestamp: U64, target: CString, payload: Payload) {
    payload.timestamp == timestamp && payload.target == target && GroupsAre(perf, k, contexts, |contexts|, payload.groups)
  }

  lemma SampledExactly(perf: Perf, k: nat, contexts: seq<GroupContext>, timestamp: U64, target: CString)
    ensures forall payload :: SampledAt(perf, k, contexts, timestamp, target, payload) <==>
      && payload.timestamp == timestamp && payload.target == target
      && GroupsData(perf, k, contexts, |contexts|) == Some(payload.groups)
  {
    forall payload: Payload
      ensures GroupsData(perf, k, contexts, |contexts|) == Some(payload.groups) <==>
        GroupsAre(perf, k, contexts, |contexts|, payload.groups)
    {
      PayloadHasShape(perf, k, contexts, |contexts|, payload.groups);
    }
  }

  // ----- One more, and a failure is final

  lemma CpusStep(perf: Perf, k: nat, events: seq<CString>, cpus: seq<CString>, n: nat, data: seq<Cpu>)
    requires n < |cpus| && CpusData(perf, k, events, cpus, n) == Some(data)
    ensures var read := ReadCpu(perf, k + n, events);
      && (read.None? ==> CpusData(perf, k, events, cpus, |cpus|) == None)
      && (read.Some? ==> CpusData(perf, k, events, cpus, n + 1) == Some(data + [Cpu(cpus[n], Filed(events, read.value, |events|))]))
  {
    if ReadCpu(perf, k + n, events).None? {
      CpusFail(perf, k, events, cpus, n + 1, |cpus|);
    }
  }

  lemma PkgsStep(perf: Perf, k: nat, events: seq<CString>, pkgs: seq<Package>, n: nat, data: seq<Pkg>, pkg: Option<Pkg>)
    requires n < |pkgs| && PkgsData(perf, k, events, pkgs, n) == Some(data)
    requires var cpus := CpusData(perf, k + CpusBefore(pkgs, n), events, pkgs[n].cpus, |pkgs[n].cpus|);
      if pkg.None? then cpus == None else pkg.value.id == pkgs[n].id && cpus == Some(pkg.value.cpus)
    ensures pkg.None? ==> PkgsData(perf, k, events, pkgs, |pkgs|) == None
    ensures pkg.Some? ==> PkgsData(perf, k, events, pkgs, n + 1) == Some(data + [pkg.value])
  {
    if pkg.None? {
      PkgsFail(perf, k, events, pkgs, n + 1, |pkgs|);
    }
  }

  lemma GroupsStep(perf: Perf, k: nat, contexts: seq<GroupContext>, n: nat, data: seq<Group>, group: Option<Group>)
    requires n < |contexts| && GroupsData(perf, k, contexts, n) == Some(data)
    requires var g := contexts[n];
      var pkgs := PkgsData(perf, k + ReadsBefore(contexts, n), g.events, g.pkgs, |g.pkgs|);
      if group.None? then pkgs == None else group.value.name == g.name && pkgs == Some(group.value.pkgs)
    ensures group.None? ==> GroupsData(perf, k, contexts, |contexts|) == None
    ensures group.Some? ==> GroupsData(perf, k, contexts, n + 1) == Some(data + [group.value])
  {
    if group.None? {
      GroupsFail(perf, k, contexts, n + 1, |contexts|);
    }
  }

  lemma {:induction false} CpusFail(perf: Perf, k: nat, events: seq<CString>, cpus: seq<CString>, i: nat, n: nat)
    requires i <= n <= |cpus| && CpusData(perf, k, events, cpus, i).None?
    ensures CpusData(perf, k, events, cpus, n).None?
  {
    if i < n {
      CpusFail(perf, k, events, cpus, i, n - 1);
    }
  }

  lemma {:induction false} PkgsFail(perf: Perf, k: nat, events: seq<CString>, pkgs: seq<Package>, i: nat, n: nat)
    requires i <= n <= |pkgs| && PkgsData(perf, k, events, pkgs, i).None?
    ensures PkgsData(perf, k, events, pkgs, n).None?
  {
    if i < n {
      PkgsFail(perf, k, events, pkgs, i, n - 1);
    }
  }

  lemma {:induction false} GroupsFail(perf: Perf, k: nat, contexts: seq<GroupContext>, i: nat, n: nat)
    requires i <= n <= |contexts| && GroupsData(perf, k, contexts, i).None?
    ensures GroupsData(perf, k, contexts, n).None?
  {
    if i < n {
      GroupsFail(perf, k, contexts, i, n - 1);
    }
  }
}
