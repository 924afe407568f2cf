/** What the tables hold after a JSON document, for every document. */
module ConfigDocument {
  import opened Text
  import opened Sampling
  import opened Config

  /** A group of a document with the kind of the key it stands under. */
  datatype Under = Under(kind: Kind, group: GroupDoc)

  function Tagged(k: Kind, groups: seq<GroupDoc>): (r: seq<Under>)
    ensures |r| == |groups|
  {
    seq(|groups|, i requires 0 <= i < |groups| => Under(k, groups[i]))
  }

  /** All groups of a document, in order. */
  function AllGroups(sections: seq<Section>): seq<Under> {
    if sections == [] then []
    else AllGroups(sections[..|sections| - 1]) + Tagged(sections[|sections| - 1].kind, sections[|sections| - 1].groups)
  }

  // ----- Which documents are accepted

  ghost predicate GoodItem(i: Item, supports: Support) { i.Name? && supports(i.event) }

  ghost predicate GoodItems(items: seq<Item>, supports: Support) {
    forall i :: 0 <= i < |items| ==> GoodItem(items[i], supports)
  }

  ghost predicate GoodField(f: Field, supports: Support) {
    match f
    case Monitoring(value) => value == "MONITOR_ONE_CPU_PER_SOCKET" || value == "MONITOR_ALL_CPU_PER_SOCKET"
    case Array(items) => GoodItems(items, supports)
    case Unknown => false
  }

  ghost predicate GoodFields(fields: seq<Field>, supports: Support) {
    forall i :: 0 <= i < |fields| ==> GoodField(fields[i], supports)
  }

  ghost predicate GoodGroup(g: GroupDoc, supports: Support) { g.isDocument && GoodFields(g.fields, supports) }

  ghost predicate GoodGroups(groups: seq<Under>, supports: Support) {
    forall i :: 0 <= i < |groups| ==> GoodGroup(groups[i].group, supports)
  }

  // ----- What a group is given

  function EventsIn(items: seq<Item>): seq<string> {
    seq(|items|, i requires 0 <= i < |items| => if items[i].Name? then items[i].event else "")
  }

  /** The events of all arrays, in order. */
  function EventsGiven(fields: seq<Field>): seq<string> {
    if fields == [] then []
    else
      EventsGiven(fields[..|fields| - 1])
      + match fields[|fields| - 1] case Array(items) => EventsIn(items) case _ => []
  }

  /** The last monitoring type given asks for one CPU per socket. */
  ghost predicate LastAsksForOne(fields: seq<Field>) {
    exists i :: 0 <= i < |fields| && AsksForOneAt(fields, i)
  }

  ghost predicate AsksForOneAt(fields: seq<Field>, i: nat)
    requires i < |fields|
  {
    && fields[i] == Monitoring("MONITOR_ONE_CPU_PER_SOCKET")
    && forall j :: i < j < |fields| ==> !fields[j].Monitoring?
  }

  function Given(e: Entry, f: Field): Entry {
    match f
    case Monitoring(value) => e.(kind := if value == "MONITOR_ONE_CPU_PER_SOCKET" then OneCpu else AllCpus)
    case Array(items) => e.(events := e.events + EventsIn(items))
    case Unknown => e
  }

  function GivenAll(e: Entry, fields: seq<Field>): Entry {
    if fields == [] then e else Given(GivenAll(e, fields[..|fields| - 1]), fields[|fields| - 1])
  }

  lemma {:induction false} GivenConcat(e: Entry, a: seq<Field>, b: seq<Field>)
    ensures GivenAll(e, a + b) == GivenAll(GivenAll(e, a), b)
  {
    if b == [] {
      assert a + b == a;
    } else {
      assert (a + b)[..|a + b| - 1] == a + b[..|b| - 1];
      GivenConcat(e, a, b[..|b| - 1]);
    }
  }

  lemma AsksNext(fields: seq<Field>, f: Field)
    ensures LastAsksForOne(fields + [f]) <==>
      if f.Monitoring? then f.value == "MONITOR_ONE_CPU_PER_SOCKET" else LastAsksForOne(fields)
  {
    var all := fields + [f];
    assert forall i :: 0 <= i < |fields| ==> all[i] == fields[i];
    assert all[|fields|] == f;
    if LastAsksForOne(all) {
      var i :| 0 <= i < |all| && AsksForOneAt(all, i);
      if !f.Monitoring? {
        assert AsksForOneAt(fields, i);
      }
    }
    if f.Monitoring? && f.value == "MONITOR_ONE_CPU_PER_SOCKET" {
      assert AsksForOneAt(all, |fields|);
    }
    if !f.Monitoring? && LastAsksForOne(fields) {
      var i :| 0 <= i < |fields| && AsksForOneAt(fields, i);
      assert AsksForOneAt(all, i);
    }
  }

  /** The entry that some fields make of a new group. */
  ghost predicate Described(e: Entry, fields: seq<Field>) {
    (e.kind.OneCpu? <==> LastAsksForOne(fields)) && e.events == EventsGiven(fields)
  }

  lemma {:induction false} GivenIsDescribed(fields: seq<Field>)
    ensures Described(GivenAll(Entry(AllCpus, []), fields), fields)
  {
    if fields != [] {
      var before, last := fields[..|fields| - 1], fields[|fields| - 1];
      GivenIsDescribed(before);
      assert fields == before + [last];
      AsksNext(before, last);
    }
  }

  // ----- One field, one group

  lemma OneMoreItem(items: seq<Item>, i: Item, supports: Support)
    ensures GoodItems(items + [i], supports) <==> GoodItems(items, supports) && GoodItem(i, supports)
    ensures i.Name? ==> EventsIn(items + [i]) == EventsIn(items) + [i.event]
  {
    assert (items + [i])[|items|] == i;
    assert forall j :: 0 <= j < |items| ==> (items + [i])[j] == items[j];
  }

  lemma {:induction false} ItemsApply(p: Parse, items: seq<Item>, supports: Support)
    requires p.ok && CurrentEntry(p).Some?
    ensures var r, e := OnItems(p, items, supports), CurrentEntry(p).value;
      && (r.ok <==> GoodItems(items, supports))
      && (r.ok ==> r == PutCurrent(p, e.(events := e.events + EventsIn(items))))
  {
    var e := CurrentEntry(p).value;
    if items == [] {
      assert e.events + EventsIn(items) == e.events;
      PutSame(p);
    } else {
      var before, last := items[..|items| - 1], items[|items| - 1];
      ItemsApply(p, before, supports);
      assert items == before + [last];
      OneMoreItem(before, last, supports);
      if GoodItems(items, supports) {
        PutTwice(p, e.(events := e.events + EventsIn(before)), e.(events := (e.events + EventsIn(before)) + [last.event]));
        assert (e.events + EventsIn(before)) + [last.event] == e.events + EventsIn(items);
      }
    }
  }

  lemma FieldApplies(p: Parse, f: Field, supports: Support)
    requires p.ok && CurrentEntry(p).Some?
    ensures var r := OnField(p, f, supports);
      && (r.ok <==> GoodField(f, supports))
      && (r.ok ==> r == PutCurrent(p, Given(CurrentEntry(p).value, f)))
  {
    if f.Array? {
      ItemsApply(p, f.items, supports);
    }
  }

  lemma OneMoreField(fields: seq<Field>, f: Field, supports: Support)
    ensures GoodFields(fields + [f], supports) <==> GoodFields(fields, supports) && GoodField(f, supports)
  {
    assert (fields + [f])[|fields|] == f;
    assert forall j :: 0 <= j < |fields| ==> (fields + [f])[j] == fields[j];
  }

  lemma {:induction false} FieldsApply(p: Parse, fields: seq<Field>, supports: Support)
    requires p.ok && CurrentEntry(p).Some?
    ensures var r := OnFields(p, fields, supports);
      && (r.ok <==> GoodFields(fields, supports))
      && (r.ok ==> r == PutCurrent(p, GivenAll(CurrentEntry(p).value, fields)))
  {
    var e := CurrentEntry(p).value;
    if fields == [] {
      PutSame(p);
    } else {
      var before, last := fields[..|fields| - 1], fields[|fields| - 1];
      FieldsApply(p, before, supports);
      assert fields == before + [last];
      OneMoreField(before, last, supports);
      if GoodFields(before, supports) {
        PutTwice(p, GivenAll(e, before), GivenAll(e, fields));
        FieldApplies(OnFields(p, before, supports), last, supports);
      }
    }
  }

  function Started(t: Table, name: string): Entry { if name in t then t[name] else Entry(AllCpus, []) }

  lemma GroupApplies(p: Parse, k: Kind, g: GroupDoc, supports: Support)
    requires p.ok
    ensures var r, t := OnGroup(p, k, g, supports), p.tables.Of(k);
      && (r.ok <==> GoodGroup(g, supports))
      && (r.ok ==> r.tables == p.tables.With(k, t[g.name := GivenAll(Started(t, g.name), g.fields)]))
  {
    Selected(p, Spec(k, g.name, []));
    FieldsApply(Select(p, k, g.name), g.fields, supports);
  }

  // ----- The whole document

  ghost predicate Has(groups: seq<Under>, k: Kind, name: string) {
    exists i :: 0 <= i < |groups| && groups[i].kind == k && groups[i].group.name == name
  }

  /** All fields given under a name, in order: those of a repeated group come after. */
  function FieldsUnder(groups: seq<Under>, k: Kind, name: string): seq<Field> {
    if groups == [] then []
    else
      var last := groups[|groups| - 1];
      FieldsUnder(groups[..|groups| - 1], k, name) + if last.kind == k && last.group.name == name then last.group.fields else []
  }

  ghost predicate HoldsAt(t: Table, groups: seq<Under>, k: Kind, name: string) {
    && (name in t <==> Has(groups, k, name))
    && (if name in t then t[name] == GivenAll(Entry(AllCpus, []), FieldsUnder(groups, k, name))
        else FieldsUnder(groups, k, name) == [])
  }

  ghost predicate HoldsAll(t: Tables, groups: seq<Under>) { forall k, name :: HoldsAt(t.Of(k), groups, k, name) }

  lemma HasNext(groups: seq<Under>, u: Under, k: Kind, name: string)
    ensures Has(groups + [u], k, name) <==> Has(groups, k, name) || (u.kind == k && u.group.name == name)
    ensures FieldsUnder(groups + [u], k, name) ==
      if u.kind == k && u.group.name == name then FieldsUnder(groups, k, name) + u.group.fields else FieldsUnder(groups, k, name)
  {
    var all := groups + [u];
    assert all[|groups|] == u && all[..|groups|] == groups;
    assert forall i :: 0 <= i < |groups| ==> all[i] == groups[i];
  }

  lemma NextHolds(t: Tables, t': Tables, groups: seq<Under>, u: Under, k: Kind, name: string)
    requires HoldsAt(t.Of(k), groups, k, name)
    requires t' == t.With(u.kind, t.Of(u.kind)[u.group.name := GivenAll(Started(t.Of(u.kind), u.group.name), u.group.fields)])
    ensures HoldsAt(t'.Of(k), groups + [u], k, name)
  {
    HasNext(groups, u, k, name);
    if u.kind == k && u.group.name == name {
      GivenConcat(Entry(AllCpus, []), FieldsUnder(groups, k, name), u.group.fields);
    }
  }

  lemma OneMoreGroup(p: Parse, done: seq<Under>, k: Kind, g: GroupDoc, supports: Support)
    requires (p.ok <==> GoodGroups(done, supports)) && (p.ok ==> HoldsAll(p.tables, done))
    ensures var r, all := OnGroup(p, k, g, supports), done + [Under(k, g)];
      (r.ok <==> GoodGroups(all, supports)) && (r.ok ==> HoldsAll(r.tables, all))
  {
    var r, all := OnGroup(p, k, g, supports), done + [Under(k, g)];
    assert all[|done|] == Under(k, g);
    assert forall i :: 0 <= i < |done| ==> all[i] == done[i];
    if p.ok {
      GroupApplies(p, k, g, supports);
      if r.ok {
        forall k', name
          ensures HoldsAt(r.tables.Of(k'), all, k', name)
        {
          NextHolds(p.tables, r.tables, done, Under(k, g), k', name);
        }
      }
    }
  }

  lemma {:induction false} GroupsHold(p: Parse, done: seq<Under>, k: Kind, groups: seq<GroupDoc>, supports: Support)
    requires (p.ok <==> GoodGroups(done, supports)) && (p.ok ==> HoldsAll(p.tables, done))
    ensures var r, all := OnGroups(p, k, groups, supports), done + Tagged(k, groups);
      (r.ok <==> GoodGroups(all, supports)) && (r.ok ==> HoldsAll(r.tables, all))
  {
    if groups == [] {
      assert done + Tagged(k, groups) == done;
    } else {
      var before, last := groups[..|groups| - 1], groups[|groups| - 1];
      GroupsHold(p, done, k, before, supports);
      OneMoreGroup(OnGroups(p, k, before, supports), done + Tagged(k, before), k, last, supports);
      assert done + Tagged(k, groups) == (done + Tagged(k, before)) + [Under(k, last)];
    }
  }

  lemma {:induction false} SectionsHold(sections: seq<Section>, supports: Support)
    ensures var p := OnSections(START, sections, supports);
      (p.ok <==> GoodGroups(AllGroups(sections), supports)) && (p.ok ==> HoldsAll(p.tables, AllGroups(sections)))
  {
    if sections != [] {
      var before, last := sections[..|sections| - 1], sections[|sections| - 1];
      SectionsHold(before, supports);
      var p := OnSections(START, before, supports);
      GroupsHold(p.(current := None), AllGroups(before), last.kind, last.groups, supports);
      if !p.ok {
        BadStaysBad(AllGroups(before), Tagged(last.kind, last.groups), supports);
      }
    }
  }

  lemma BadStaysBad(a: seq<Under>, b: seq<Under>, supports: Support)
    requires !GoodGroups(a, supports)
    ensures !GoodGroups(a + b, supports)
  {
    var i :| 0 <= i < |a| && !GoodGroup(a[i].group, supports);
    assert (a + b)[i] == a[i];
  }

  /** Every document: it is accepted exactly when every group is a document of known fields with
      supported events. Its tables then have exactly the groups named under each key; each has all
      the events given under its name, in order, and monitors one CPU per socket exactly when the
      last monitoring type given under its name says so. */
  lemma DocumentsHold(sections: seq<Section>, supports: Support)
    ensures var p, groups := OnSections(START, sections, supports), AllGroups(sections);
      && (p.ok <==> GoodGroups(groups, supports))
      && (p.ok ==> forall k, name :: AsDescribed(p.tables.Of(k), groups, k, name))
  {
    SectionsHold(sections, supports);
    var p, groups := OnSections(START, sections, supports), AllGroups(sections);
    if p.ok {
      forall k, name
        ensures AsDescribed(p.tables.Of(k), groups, k, name)
      {
        HeldIsDescribed(p.tables.Of(k), groups, k, name);
      }
    }
  }

  ghost predicate AsDescribed(t: Table, groups: seq<Under>, k: Kind, name: string) {
    && (name in t <==> Has(groups, k, name))
    && (name in t ==> Described(t[name], FieldsUnder(groups, k, name)))
  }

  lemma HeldIsDescribed(t: Table, groups: seq<Under>, k: Kind, name: string)
    requires HoldsAt(t, groups, k, name)
    ensures AsDescribed(t, groups, k, name)
  {
    GivenIsDescribed(FieldsUnder(groups, k, name));
  }
}
