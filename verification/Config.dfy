/** The two front ends of src/config.c: the events groups given by command line options and by a
    JSON document. */
module Config {
  import opened Text
  import opened Sampling

  datatype Kind = System | Container

  /** A group under configuration; `events` are those accepted so far, in order. */
  datatype Entry = Entry(kind: MonitoringType, events: seq<string>)

  type Table = map<string, Entry>

  datatype Tables = Tables(system: Table, containers: Table) {
    function Of(k: Kind): Table { if k.System? then system else containers }

    function With(k: Kind, t: Table): Tables { if k.System? then Tables(t, containers) else Tables(system, t) }
  }

  /** A configuration under way: whether it has failed, the tables, and the current group. */
  datatype Parse = Parse(ok: bool, tables: Tables, current: Option<(Kind, string)>)

  const START := Parse(true, Tables(map[], map[]), None)

  /** Whether the machine supports an event. */
  type Support = string -> bool

  function Fail(p: Parse): Parse { p.(ok := false) }

  /** A new group, unless the table has one of that name: then later events go to that one. */
  function Select(p: Parse, k: Kind, name: string): Parse {
    var t := p.tables.Of(k);
    p.(tables := if name in t then p.tables else p.tables.With(k, t[name := Entry(AllCpus, [])]),
       current := Some((k, name)))
  }

  function CurrentEntry(p: Parse): Option<Entry> {
    match p.current
    case None => None
    case Some((k, name)) => if name in p.tables.Of(k) then Some(p.tables.Of(k)[name]) else None
  }

  function PutCurrent(p: Parse, e: Entry): Parse
    requires p.current.Some?
  {
    var (k, name) := p.current.value;
    p.(tables := p.tables.With(k, p.tables.Of(k)[name := e]))
  }

  function SetKind(p: Parse, kind: MonitoringType): Parse {
    var e := CurrentEntry(p);
    if e.None? then Fail(p) else PutCurrent(p, e.value.(kind := kind))
  }

  function AddEvent(p: Parse, event: string, supports: Support): Parse {
    var e := CurrentEntry(p);
    if e.None? || !supports(event) then Fail(p)
    else PutCurrent(p, e.value.(events := e.value.events + [event]))
  }

  // ----- Options

  /** The options that concern events groups: -s, -c, -o and -e. */
  datatype Choice = S(name: string) | C(name: string) | O | E(event: string)

  function OnOption(p: Parse, o: Choice, supports: Support): Parse {
    if !p.ok then p
    else
      match o
      case S(name) => Select(p, System, name)
      case C(name) => Select(p, Container, name)
      case O => SetKind(p, OneCpu)
      case E(event) => AddEvent(p, event, supports)
  }

  function OnOptions(p: Parse, options: seq<Choice>, supports: Support): Parse {
    if options == [] then p
    else OnOption(OnOptions(p, options[..|options| - 1], supports), options[|options| - 1], supports)
  }

  // ----- A document

  datatype Item = Name(event: string) | NotAString

  datatype Field = Monitoring(value: string) | Array(items: seq<Item>) | Unknown

  datatype GroupDoc = GroupDoc(name: string, isDocument: bool, fields: seq<Field>)

  /** The events groups under one "system" or "container" key. */
  datatype Section = Section(kind: Kind, groups: seq<GroupDoc>)

  function OnItem(p: Parse, i: Item, supports: Support): Parse {
    if !p.ok then p else if i.NotAString? then Fail(p) else AddEvent(p, i.event, supports)
  }

  function OnItems(p: Parse, items: seq<Item>, supports: Support): Parse {
    if items == [] then p
    else OnItem(OnItems(p, items[..|items| - 1], supports), items[|items| - 1], supports)
  }

  function OnField(p: Parse, f: Field, supports: Support): Parse {
    if !p.ok then p
    else
      match f
      case Monitoring(value) =>
        if value == "MONITOR_ONE_CPU_PER_SOCKET" then SetKind(p, OneCpu)
        else if value == "MONITOR_ALL_CPU_PER_SOCKET" then SetKind(p, AllCpus)
        else Fail(p)
      case Array(items) => OnItems(p, items, supports)
      case Unknown => Fail(p)
  }

  function OnFields(p: Parse, fields: seq<Field>, supports: Support): Parse {
    if fields == [] then p
    else OnField(OnFields(p, fields[..|fields| - 1], supports), fields[|fields| - 1], supports)
  }

  function OnGroup(p: Parse, k: Kind, g: GroupDoc, supports: Support): Parse {
    if !p.ok then p
    else if !g.isDocument then Fail(p)
    else OnFields(Select(p, k, g.name), g.fields, supports)
  }

  function OnGroups(p: Parse, k: Kind, groups: seq<GroupDoc>, supports: Support): Parse {
    if groups == [] then p
    else OnGroup(OnGroups(p, k, groups[..|groups| - 1], supports), k, groups[|groups| - 1], supports)
  }

  function OnSections(p: Parse, sections: seq<Section>, supports: Support): Parse {
    if sections == [] then p
    else
      OnSection(OnSections(p, sections[..|sections| - 1], supports), sections[|sections| - 1], supports)
  }

  /** Each section starts without a current group. */
  function OnSection(p: Parse, s: Section, supports: Support): Parse {
    if !p.ok then p else OnGroups(p.(current := None), s.kind, s.groups, supports)
  }

  // ----- The same groups in both forms

  /** What a group is given: one CPU per socket, or some more events. */
  datatype Setting = OnePerSocket | Events(events: seq<string>)

  /** A group and its settings, in the order in which they are given. */
  datatype Spec = Spec(kind: Kind, name: string, settings: seq<Setting>)

  function EventOptions(events: seq<string>): seq<Choice> {
    seq(|events|, i requires 0 <= i < |events| => E(events[i]))
  }

  function SettingOptions(s: Setting): seq<Choice> {
    match s
    case OnePerSocket => [O]
    case Events(events) => EventOptions(events)
  }

  function SettingsOptions(settings: seq<Setting>): seq<Choice> {
    if settings == [] then []
    else SettingsOptions(settings[..|settings| - 1]) + SettingOptions(settings[|settings| - 1])
  }

  function Opening(s: Spec): Choice { if s.kind.System? then S(s.name) else C(s.name) }

  function SpecOptions(s: Spec): seq<Choice> { [Opening(s)] + SettingsOptions(s.settings) }

  function AsOptions(specs: seq<Spec>): seq<Choice> {
    if specs == [] then [] else AsOptions(specs[..|specs| - 1]) + SpecOptions(specs[|specs| - 1])
  }

  function EventItems(events: seq<string>): seq<Item> {
    seq(|events|, i requires 0 <= i < |events| => Name(events[i]))
  }

  function SettingField(s: Setting): Field {
    match s
    case OnePerSocket => Monitoring("MONITOR_ONE_CPU_PER_SOCKET")
    case Events(events) => Array(EventItems(events))
  }

  function SettingsFields(settings: seq<Setting>): (r: seq<Field>)
    ensures |r| == |settings|
  {
    seq(|settings|, i requires 0 <= i < |settings| => SettingField(settings[i]))
  }

  function SpecDoc(s: Spec): GroupDoc { GroupDoc(s.name, true, SettingsFields(s.settings)) }

  function Docs(specs: seq<Spec>): (r: seq<GroupDoc>)
    ensures |r| == |specs|
  {
    seq(|specs|, i requires 0 <= i < |specs| => SpecDoc(specs[i]))
  }

  predicate OfKind(k: Kind, specs: seq<Spec>) { forall i :: 0 <= i < |specs| ==> specs[i].kind == k }

  /** One key of a document with any number of groups under it. */
  datatype Part = Part(kind: Kind, specs: seq<Spec>)

  predicate PartsAgree(parts: seq<Part>) { forall i :: 0 <= i < |parts| ==> OfKind(parts[i].kind, parts[i].specs) }

  function AsSections(parts: seq<Part>): seq<Section> {
    seq(|parts|, i requires 0 <= i < |parts| => Section(parts[i].kind, Docs(parts[i].specs)))
  }

  function AllSpecs(parts: seq<Part>): seq<Spec> {
    if parts == [] then [] else AllSpecs(parts[..|parts| - 1]) + parts[|parts| - 1].specs
  }

  lemma {:induction false} OptionsConcat(p: Parse, a: seq<Choice>, b: seq<Choice>, supports: Support)
    ensures OnOptions(p, a + b, supports) == OnOptions(OnOptions(p, a, supports), b, supports)
  {
    if b == [] {
      assert a + b == a;
    } else {
      assert (a + b)[..|a + b| - 1] == a + b[..|b| - 1];
      OptionsConcat(p, a, b[..|b| - 1], supports);
    }
  }

  lemma OneOption(p: Parse, o: Choice, supports: Support)
    ensures OnOptions(p, [o], supports) == OnOption(p, o, supports)
  {
    assert [o][..0] == [];
  }

  lemma {:induction false} OptionsStop(p: Parse, options: seq<Choice>, supports: Support)
    requires !p.ok
    ensures OnOptions(p, options, supports) == p
  {
    if options != [] {
      OptionsStop(p, options[..|options| - 1], supports);
    }
  }

  lemma {:induction false} EventsAgree(p: Parse, events: seq<string>, supports: Support)
    ensures OnOptions(p, EventOptions(events), supports) == OnItems(p, EventItems(events), supports)
  {
    if events != [] {
      var before := events[..|events| - 1];
      EventsAgree(p, before, supports);
      assert EventOptions(events)[..|before|] == EventOptions(before);
      assert EventItems(events)[..|before|] == EventItems(before);
    }
  }

  lemma SettingAgrees(p: Parse, s: Setting, supports: Support)
    ensures OnOptions(p, SettingOptions(s), supports) == OnField(p, SettingField(s), supports)
  {
    if !p.ok {
      OptionsStop(p, SettingOptions(s), supports);
    } else {
      match s {
        case OnePerSocket => OneOption(p, O, supports);
        case Events(events) => EventsAgree(p, events, supports);
      }
    }
  }

  lemma {:induction false} SettingsAgree(p: Parse, settings: seq<Setting>, supports: Support)
    ensures OnOptions(p, SettingsOptions(settings), supports) == OnFields(p, SettingsFields(settings), supports)
  {
    if settings != [] {
      var before, last := settings[..|settings| - 1], settings[|settings| - 1];
      SettingsAgree(p, before, supports);
      OptionsConcat(p, SettingsOptions(before), SettingOptions(last), supports);
      assert SettingsFields(settings)[..|before|] == SettingsFields(before);
      SettingAgrees(OnOptions(p, SettingsOptions(before), supports), last, supports);
    }
  }

  lemma SpecInTwo(p: Parse, s: Spec, supports: Support)
    requires p.ok
    ensures OnOptions(p, SpecOptions(s), supports) == OnOptions(Select(p, s.kind, s.name), SettingsOptions(s.settings), supports)
  {
    OptionsConcat(p, [Opening(s)], SettingsOptions(s.settings), supports);
    OneOption(p, Opening(s), supports);
  }

  lemma SpecAgrees(p: Parse, s: Spec, supports: Support)
    ensures OnOptions(p, SpecOptions(s), supports) == OnGroup(p, s.kind, SpecDoc(s), supports)
  {
    if p.ok {
      SpecInTwo(p, s, supports);
      SettingsAgree(Select(p, s.kind, s.name), s.settings, supports);
    } else {
      OptionsStop(p, SpecOptions(s), supports);
    }
  }

  lemma NextSpec(p: Parse, specs: seq<Spec>, supports: Support)
    requires specs != []
    ensures OnOptions(p, AsOptions(specs), supports) ==
      OnOptions(OnOptions(p, AsOptions(specs[..|specs| - 1]), supports), SpecOptions(specs[|specs| - 1]), supports)
  {
    OptionsConcat(p, AsOptions(specs[..|specs| - 1]), SpecOptions(specs[|specs| - 1]), supports);
  }

  /** Any number of groups under one key. */
  lemma {:induction false} GroupsAgree(p: Parse, k: Kind, specs: seq<Spec>, supports: Support)
    requires OfKind(k, specs)
    ensures OnOptions(p, AsOptions(specs), supports) == OnGroups(p, k, Docs(specs), supports)
  {
    if specs != [] {
      var before, last := specs[..|specs| - 1], specs[|specs| - 1];
      GroupsAgree(p, k, before, supports);
      NextSpec(p, specs, supports);
      assert Docs(specs)[..|before|] == Docs(before);
      SpecAgrees(OnOptions(p, AsOptions(before), supports), last, supports);
    }
  }

  /** The same outcome and tables. */
  predicate SameResult(p: Parse, q: Parse) { p.ok == q.ok && p.tables == q.tables }

  /** The first group of a key makes itself the current one, whatever that was before. */
  lemma {:induction false} CurrentForgotten(p: Parse, q: Parse, specs: seq<Spec>, supports: Support)
    requires SameResult(p, q)
    ensures SameResult(OnOptions(p, AsOptions(specs), supports), OnOptions(q, AsOptions(specs), supports))
    ensures p.ok && specs != [] ==> OnOptions(p, AsOptions(specs), supports) == OnOptions(q, AsOptions(specs), supports)
  {
    if !p.ok {
      OptionsStop(p, AsOptions(specs), supports);
      OptionsStop(q, AsOptions(specs), supports);
    } else if specs != [] {
      var before, last := specs[..|specs| - 1], specs[|specs| - 1];
      CurrentForgotten(p, q, before, supports);
      NextSpec(p, specs, supports);
      NextSpec(q, specs, supports);
      if before == [] {
        SpecInTwo(p, last, supports);
        SpecInTwo(q, last, supports);
      }
    }
  }

  lemma LastSpec(specs: seq<Spec>, s: Spec)
    ensures AsOptions(specs + [s]) == AsOptions(specs) + SpecOptions(s)
  {
    assert (specs + [s])[..|specs|] == specs;
  }

  lemma {:induction false} AsOptionsConcat(a: seq<Spec>, b: seq<Spec>)
    ensures AsOptions(a + b) == AsOptions(a) + AsOptions(b)
  {
    if b == [] {
      ConcatNone(a);
    } else {
      var before, last := b[..|b| - 1], b[|b| - 1];
      assert b == before + [last];
      AsOptionsConcat(a, before);
      ConcatLast(a, b, before, last);
    }
  }

  lemma ConcatLast(a: seq<Spec>, b: seq<Spec>, before: seq<Spec>, last: Spec)
    requires b == before + [last] && AsOptions(a + before) == AsOptions(a) + AsOptions(before)
    ensures AsOptions(a + b) == AsOptions(a) + AsOptions(b)
  {
    ConcatNext(a, before, last);
  }

  lemma ConcatNone(a: seq<Spec>)
    ensures AsOptions(a + []) == AsOptions(a) + AsOptions([])
  {
    assert a + [] == a;
    assert AsOptions(a) + [] == AsOptions(a);
  }

  lemma ConcatNext(a: seq<Spec>, b: seq<Spec>, s: Spec)
    requires AsOptions(a + b) == AsOptions(a) + AsOptions(b)
    ensures AsOptions(a + (b + [s])) == AsOptions(a) + AsOptions(b + [s])
  {
    Associative(a, b, [s]);
    LastSpec(a + b, s);
    LastSpec(b, s);
    Associative(AsOptions(a), AsOptions(b), SpecOptions(s));
  }

  lemma Associative<T>(a: seq<T>, b: seq<T>, c: seq<T>)
    ensures a + (b + c) == (a + b) + c
  {}

  lemma SectionAgrees(p: Parse, q: Parse, part: Part, supports: Support)
    requires SameResult(p, q) && OfKind(part.kind, part.specs)
    ensures SameResult(OnOptions(p, AsOptions(part.specs), supports), OnSection(q, Section(part.kind, Docs(part.specs)), supports))
  {
    if p.ok {
      CurrentForgotten(p, q.(current := None), part.specs, supports);
      GroupsAgree(q.(current := None), part.kind, part.specs, supports);
    } else {
      OptionsStop(p, AsOptions(part.specs), supports);
    }
  }

  /** For every list of keys with any number of groups under each, repeated names, interleaved
      settings and unsupported events included, the two front ends build the same tables, and one
      fails exactly when the other does. */
  lemma {:induction false} FrontEndsAgree(parts: seq<Part>, supports: Support)
    requires PartsAgree(parts)
    ensures SameResult(OnOptions(START, AsOptions(AllSpecs(parts)), supports), OnSections(START, AsSections(parts), supports))
  {
    if parts != [] {
      var before, last := parts[..|parts| - 1], parts[|parts| - 1];
      assert PartsAgree(before) && OfKind(last.kind, last.specs);
      FrontEndsAgree(before, supports);
      AsOptionsConcat(AllSpecs(before), last.specs);
      OptionsConcat(START, AsOptions(AllSpecs(before)), AsOptions(last.specs), supports);
      assert AsSections(parts)[..|before|] == AsSections(before);
      SectionAgrees(OnOptions(START, AsOptions(AllSpecs(before)), supports),
        OnSections(START, AsSections(before), supports), last, supports);
    }
  }

  // ----- Every command line is such a list

  /** The groups that a list of options gives, for options that start with a group. */
  function SpecsOf(options: seq<Choice>): seq<Spec> {
    if options == [] then []
    else
      var before := SpecsOf(options[..|options| - 1]);
      match options[|options| - 1]
      case S(name) => before + [Spec(System, name, [])]
      case C(name) => before + [Spec(Container, name, [])]
      case O => WithSetting(before, OnePerSocket)
      case E(event) => WithSetting(before, Events([event]))
  }

  function WithSetting(specs: seq<Spec>, s: Setting): seq<Spec> {
    if specs == [] then []
    else
      var last := specs[|specs| - 1];
      specs[..|specs| - 1] + [last.(settings := last.settings + [s])]
  }

  lemma SettingAppends(specs: seq<Spec>, s: Setting)
    requires specs != []
    ensures AsOptions(WithSetting(specs, s)) == AsOptions(specs) + SettingOptions(s)
  {
    var before, last := specs[..|specs| - 1], specs[|specs| - 1];
    var more := last.(settings := last.settings + [s]);
    LastSpec(before, more);
    LastSpec(before, last);
    assert specs == before + [last];
    SpecGrows(last, s);
    Associative(AsOptions(before), SpecOptions(last), SettingOptions(s));
  }

  lemma SpecGrows(spec: Spec, s: Setting)
    ensures SpecOptions(spec.(settings := spec.settings + [s])) == SpecOptions(spec) + SettingOptions(s)
  {
    assert (spec.settings + [s])[..|spec.settings|] == spec.settings;
    Associative([Opening(spec)], SettingsOptions(spec.settings), SettingOptions(s));
  }

  lemma SpecAppends(specs: seq<Spec>, s: Spec)
    requires s.settings == []
    ensures AsOptions(specs + [s]) == AsOptions(specs) + [Opening(s)]
  {
    LastSpec(specs, s);
    assert SpecOptions(s) == [Opening(s)];
  }

  predicate StartsWithGroup(options: seq<Choice>) {
    options != [] && (options[0].S? || options[0].C?)
  }

  /** A command line that does not start with a group fails, unless it is empty; every other one
      is the options of some list of groups. */
  lemma {:induction false} OptionsAreSpecs(options: seq<Choice>, supports: Support)
    requires options != []
    ensures StartsWithGroup(options) ==> SpecsOf(options) != [] && AsOptions(SpecsOf(options)) == options
    ensures !StartsWithGroup(options) ==> !OnOptions(START, options, supports).ok
  {
    var before, last := options[..|options| - 1], options[|options| - 1];
    assert options == before + [last];
    if before != [] {
      OptionsAreSpecs(before, supports);
    }
    if StartsWithGroup(options) {
      OptionExtends(before, last, SpecsOf(before));
    }
  }

  lemma OptionExtends(before: seq<Choice>, last: Choice, specs: seq<Spec>)
    requires specs == SpecsOf(before) && AsOptions(specs) == before
    requires specs != [] || last.S? || last.C?
    ensures SpecsOf(before + [last]) != [] && AsOptions(SpecsOf(before + [last])) == before + [last]
  {
    assert (before + [last])[..|before|] == before;
    match last {
      case S(name) => SpecAppends(specs, Spec(System, name, []));
      case C(name) => SpecAppends(specs, Spec(Container, name, []));
      case O => SettingAppends(specs, OnePerSocket);
      case E(event) =>
        SettingAppends(specs, Events([event]));
        assert EventOptions([event]) == [E(event)];
    }
  }

  // ----- What the tables hold

  predicate Is(s: Spec, k: Kind, name: string) { s.kind == k && s.name == name }

  predicate Named(specs: seq<Spec>, k: Kind, name: string) {
    specs != [] && (Named(specs[..|specs| - 1], k, name) || Is(specs[|specs| - 1], k, name))
  }

  predicate OneWanted(settings: seq<Setting>) { OnePerSocket in settings }

  predicate OneCpuWanted(specs: seq<Spec>, k: Kind, name: string) {
    specs != [] &&
    (OneCpuWanted(specs[..|specs| - 1], k, name)
     || (Is(specs[|specs| - 1], k, name) && OneWanted(specs[|specs| - 1].settings)))
  }

  function EventsIn(settings: seq<Setting>): seq<string> {
    if settings == [] then []
    else
      match settings[|settings| - 1]
      case OnePerSocket => EventsIn(settings[..|settings| - 1])
      case Events(events) => EventsIn(settings[..|settings| - 1]) + events
  }

  /** The events of every group of that name, in order: those of a repeated group come after. */
  function EventsOf(specs: seq<Spec>, k: Kind, name: string): seq<string> {
    if specs == [] then []
    else if Is(specs[|specs| - 1], k, name) then
      EventsOf(specs[..|specs| - 1], k, name) + EventsIn(specs[|specs| - 1].settings)
    else EventsOf(specs[..|specs| - 1], k, name)
  }

  ghost predicate AllSupported(events: seq<string>, supports: Support) {
    forall i :: 0 <= i < |events| ==> supports(events[i])
  }

  lemma AllSupportedConcat(a: seq<string>, b: seq<string>, supports: Support)
    ensures AllSupported(a + b, supports) <==> AllSupported(a, supports) && AllSupported(b, supports)
  {
    forall i | 0 <= i < |b|
      ensures b[i] == (a + b)[|a| + i]
    {}
    forall i | 0 <= i < |a|
      ensures a[i] == (a + b)[i]
    {}
  }

  lemma {:induction false} EventsAppended(p: Parse, events: seq<string>, supports: Support)
    requires p.ok && CurrentEntry(p).Some?
    ensures var r := OnOptions(p, EventOptions(events), supports);
      && (r.ok <==> AllSupported(events, supports))
      && (r.ok ==> r == PutCurrent(p, CurrentEntry(p).value.(events := CurrentEntry(p).value.events + events)))
  {
    var already := CurrentEntry(p).value.events;
    if events == [] {
      assert already + events == already;
      PutSame(p);
    } else {
      var before := events[..|events| - 1];
      EventsAppended(p, before, supports);
      assert EventOptions(events)[..|before|] == EventOptions(before);
      assert already + events == (already + before) + [events[|before|]];
      assert AllSupported(events, supports) <==> AllSupported(before, supports) && supports(events[|before|]);
    }
  }

  lemma PutSame(p: Parse)
    requires CurrentEntry(p).Some?
    ensures PutCurrent(p, CurrentEntry(p).value) == p
  {
    var (k, name) := p.current.value;
    assert p.tables.Of(k)[name := p.tables.Of(k)[name]] == p.tables.Of(k);
  }

  lemma PutTwice(p: Parse, e: Entry, e': Entry)
    requires p.current.Some?
    ensures var q := PutCurrent(p, e);
      CurrentEntry(q) == Some(e) && PutCurrent(q, e') == PutCurrent(p, e') && q.ok == p.ok
  {
    var (k, name) := p.current.value;
    assert p.tables.Of(k)[name := e][name := e'] == p.tables.Of(k)[name := e'];
  }

  /** An entry with more settings. */
  function Extended(e: Entry, settings: seq<Setting>): Entry {
    Entry(if OneWanted(settings) then OneCpu else e.kind, e.events + EventsIn(settings))
  }

  lemma SettingExtends(e: Entry, settings: seq<Setting>, s: Setting)
    ensures OneWanted(settings + [s]) <==> OneWanted(settings) || s.OnePerSocket?
    ensures EventsIn(settings + [s]) == EventsIn(settings) + EventsIn([s])
    ensures Extended(e, settings + [s]) == Extended(Extended(e, settings), [s])
  {
    assert (settings + [s])[..|settings|] == settings;
    OneSetting(s);
    var before, added := EventsIn(settings), EventsIn([s]);
    assert EventsIn(settings + [s]) == before + added;
    assert e.events + (before + added) == (e.events + before) + added;
  }

  lemma OneSetting(s: Setting)
    ensures EventsIn([s]) == if s.Events? then s.events else []
    ensures OneWanted([s]) <==> s.OnePerSocket?
  {
    assert [s][..0] == [];
  }

  lemma SettingApplies(p: Parse, s: Setting, supports: Support)
    requires p.ok && CurrentEntry(p).Some?
    ensures var r := OnOptions(p, SettingOptions(s), supports);
      && (r.ok <==> AllSupported(EventsIn([s]), supports))
      && (r.ok ==> r == PutCurrent(p, Extended(CurrentEntry(p).value, [s])))
  {
    OneSetting(s);
    var e := CurrentEntry(p).value;
    match s {
      case OnePerSocket =>
        OneOption(p, O, supports);
        assert e.events + [] == e.events;
      case Events(events) => EventsAppended(p, events, supports);
    }
  }

  lemma {:induction false} SettingsApply(p: Parse, settings: seq<Setting>, supports: Support)
    requires p.ok && CurrentEntry(p).Some?
    ensures var r := OnOptions(p, SettingsOptions(settings), supports);
      && (r.ok <==> AllSupported(EventsIn(settings), supports))
      && (r.ok ==> r == PutCurrent(p, Extended(CurrentEntry(p).value, settings)))
  {
    var e := CurrentEntry(p).value;
    if settings == [] {
      assert Extended(e, settings) == e;
      PutSame(p);
    } else {
      var before, last := settings[..|settings| - 1], settings[|settings| - 1];
      assert settings == before + [last];
      SettingsApply(p, before, supports);
      SettingExtends(e, before, last);
      OptionsConcat(p, SettingsOptions(before), SettingOptions(last), supports);
      OneMoreSetting(p, OnOptions(p, SettingsOptions(before), supports), before, last, supports);
    }
  }

  lemma OneMoreSetting(p: Parse, q: Parse, settings: seq<Setting>, s: Setting, supports: Support)
    requires p.ok && CurrentEntry(p).Some?
    requires q.ok <==> AllSupported(EventsIn(settings), supports)
    requires q.ok ==> q == PutCurrent(p, Extended(CurrentEntry(p).value, settings))
    ensures var r, all := OnOptions(q, SettingOptions(s), supports), settings + [s];
      && (r.ok <==> AllSupported(EventsIn(all), supports))
      && (r.ok ==> r == PutCurrent(p, Extended(CurrentEntry(p).value, all)))
  {
    var e := CurrentEntry(p).value;
    SettingExtends(e, settings, s);
    AllSupportedConcat(EventsIn(settings), EventsIn([s]), supports);
    if q.ok {
      PutTwice(p, Extended(e, settings), Extended(e, settings + [s]));
      SettingApplies(q, s, supports);
    } else {
      OptionsStop(q, SettingOptions(s), supports);
    }
  }

  /** The entry that a group leaves behind. */
  function Merged(t: Table, s: Spec): Entry {
    Extended(if s.name in t then t[s.name] else Entry(AllCpus, []), s.settings)
  }

  lemma Selected(p: Parse, s: Spec)
    requires p.ok
    ensures var o, t := Select(p, s.kind, s.name), p.tables.Of(s.kind);
      && o.ok && o.current == Some((s.kind, s.name))
      && CurrentEntry(o) == Some(if s.name in t then t[s.name] else Entry(AllCpus, []))
      && forall e :: PutCurrent(o, e).tables == p.tables.With(s.kind, t[s.name := e])
  {}

  lemma SpecEffect(p: Parse, s: Spec, supports: Support)
    requires p.ok
    ensures var r := OnOptions(p, SpecOptions(s), supports);
      && (r.ok <==> AllSupported(EventsIn(s.settings), supports))
      && (r.ok ==> r.tables == p.tables.With(s.kind, p.tables.Of(s.kind)[s.name := Merged(p.tables.Of(s.kind), s)]))
  {
    SpecInTwo(p, s, supports);
    Selected(p, s);
    SettingsApply(Select(p, s.kind, s.name), s.settings, supports);
  }

  ghost predicate EverySupported(specs: seq<Spec>, supports: Support) {
    forall i :: 0 <= i < |specs| ==> AllSupported(EventsIn(specs[i].settings), supports)
  }

  /** A configuration is accepted exactly when every event is supported, and its tables then have
      each group named, once, with all the events given under its name in order and one CPU per
      socket if that was asked for under its name. */
  lemma {:induction false} TablesHold(specs: seq<Spec>, supports: Support)
    ensures var p := OnOptions(START, AsOptions(specs), supports);
      && (p.ok <==> EverySupported(specs, supports))
      && (p.ok ==> AllHold(p.tables, specs))
  {
    if specs != [] {
      var before := specs[..|specs| - 1];
      TablesHold(before, supports);
      NextSpec(START, specs, supports);
      NextTables(OnOptions(START, AsOptions(before), supports), specs, supports);
    }
  }

  lemma NextTables(p: Parse, specs: seq<Spec>, supports: Support)
    requires specs != [] && (p.ok <==> EverySupported(specs[..|specs| - 1], supports))
    requires p.ok ==> AllHold(p.tables, specs[..|specs| - 1])
    ensures var r := OnOptions(p, SpecOptions(specs[|specs| - 1]), supports);
      && (r.ok <==> EverySupported(specs, supports))
      && (r.ok ==> AllHold(r.tables, specs))
  {
    var before, last := specs[..|specs| - 1], specs[|specs| - 1];
    OneMoreSupported(before, last, supports);
    assert specs == before + [last];
    if p.ok {
      SpecEffect(p, last, supports);
      var r := OnOptions(p, SpecOptions(last), supports);
      if r.ok {
        MoreHold(p.tables, r.tables, specs);
      }
    } else {
      OptionsStop(p, SpecOptions(last), supports);
    }
  }

  lemma OneMoreSupported(specs: seq<Spec>, s: Spec, supports: Support)
    ensures EverySupported(specs + [s], supports) <==>
      EverySupported(specs, supports) && AllSupported(EventsIn(s.settings), supports)
  {
    var all := specs + [s];
    assert all[|specs|] == s;
    forall i | 0 <= i < |specs|
      ensures all[i] == specs[i]
    {}
  }

  lemma MoreHold(t: Tables, t': Tables, specs: seq<Spec>)
    requires specs != [] && AllHold(t, specs[..|specs| - 1])
    requires var last := specs[|specs| - 1];
      t' == t.With(last.kind, t.Of(last.kind)[last.name := Merged(t.Of(last.kind), last)])
    ensures AllHold(t', specs)
  {
    forall k, name
      ensures Holds(t'.Of(k), specs, k, name)
    {
      OneMoreSpec(t, t', specs, k, name);
    }
  }

  lemma OneMoreSpec(t: Tables, t': Tables, specs: seq<Spec>, k: Kind, name: string)
    requires specs != [] && Holds(t.Of(k), specs[..|specs| - 1], k, name)
    requires var last := specs[|specs| - 1];
      t' == t.With(last.kind, t.Of(last.kind)[last.name := Merged(t.Of(last.kind), last)])
    ensures Holds(t'.Of(k), specs, k, name)
  {}

  ghost predicate AllHold(t: Tables, specs: seq<Spec>) { forall k, name :: Holds(t.Of(k), specs, k, name) }

  ghost predicate Holds(t: Table, specs: seq<Spec>, k: Kind, name: string) {
    && (name in t <==> Named(specs, k, name))
    && (name in t ==> t[name] == Entry(if OneCpuWanted(specs, k, name) then OneCpu else AllCpus, EventsOf(specs, k, name)))
    && (!Named(specs, k, name) ==> EventsOf(specs, k, name) == [] && !OneCpuWanted(specs, k, name))
  }

  // ----- The front ends in place

  class Configuration {
    var system: Table
    var containers: Table
    const supports: Support

    constructor (supports: Support)
      ensures Abs() == START.tables && this.supports == supports
    {
      this.supports := supports;
      system, containers := map[], map[];
    }

    ghost function Abs(): Tables
      reads this
    {
      Tables(system, containers)
    }

    /** zhashx_insert and zhashx_lookup of a new group. */
    method SelectGroup(k: Kind, name: string)
      modifies this
      ensures Abs() == Select(Parse(true, old(Abs()), None), k, name).tables
    {
      if k.System? {
        if name !in system {
          system := system[name := Entry(AllCpus, [])];
        }
      } else if name !in containers {
        containers := containers[name := Entry(AllCpus, [])];
      }
    }

    /** An update through the pointer to the current group. */
    method UpdateCurrent(current: (Kind, string), e: Entry)
      modifies this
      ensures Abs() == PutCurrent(Parse(true, old(Abs()), Some(current)), e).tables
    {
      if current.0.System? {
        system := system[current.1 := e];
      } else {
        containers := containers[current.1 := e];
      }
    }

    method Lookup(current: Option<(Kind, string)>) returns (e: Option<Entry>)
      ensures e == CurrentEntry(Parse(true, Abs(), current))
    {
      if current.None? {
        return None;
      }
      var (k, name) := current.value;
      var t := if k.System? then system else containers;
      e := if name in t then Some(t[name]) else None;
    }

    /** config_setup_from_cli, as far as it concerns events groups. */
    method SetupFromCli(options: seq<Choice>) returns (ret: int)
      requires Abs() == START.tables
      modifies this
      ensures ret == 0 || ret == -1
      ensures var p := OnOptions(START, options, supports); p.ok == (ret == 0) && p.tables == Abs()
    {
      var current: Option<(Kind, string)> := None;
      var i := 0;
      while i < |options|
        invariant i <= |options|
        invariant OnOptions(START, options[..i], supports) == Parse(true, Abs(), current)
      {
        assert options[..i + 1][..i] == options[..i];
        var failed := false;
        match options[i] {
          case S(name) => SelectGroup(System, name); current := Some((System, name));
          case C(name) => SelectGroup(Container, name); current := Some((Container, name));
          case O =>
            var e := Lookup(current);
            if e.None? {
              failed := true;
            } else {
              UpdateCurrent(current.value, e.value.(kind := OneCpu));
            }
          case E(event) =>
            var e := Lookup(current);
            if e.None? || !supports(event) {
              failed := true;
            } else {
              UpdateCurrent(current.value, e.value.(events := e.value.events + [event]));
            }
        }
        i := i + 1;
        if failed {
          StopsThere(START, options, i, supports);
          return -1;
        }
      }
      assert options[..i] == options;
      return 0;
    }

    /** parse_event_array on the current group. */
    method ParseEventArray(items: seq<Item>, current: (Kind, string)) returns (ret: int)
      modifies this
      ensures ret == 0 || ret == -1
      ensures Parse(ret == 0, Abs(), Some(current)) == OnItems(Parse(true, old(Abs()), Some(current)), items, supports)
    {
      ghost var start := Parse(true, Abs(), Some(current));
      var i := 0;
      while i < |items|
        invariant i <= |items|
        invariant OnItems(start, items[..i], supports) == Parse(true, Abs(), Some(current))
      {
        assert items[..i + 1][..i] == items[..i];
        var e := Lookup(Some(current));
        if items[i].NotAString? || e.None? || !supports(items[i].event) {
          ItemsStopThere(start, items, i + 1, supports);
          return -1;
        }
        UpdateCurrent(current, e.value.(events := e.value.events + [items[i].event]));
        i := i + 1;
      }
      assert items[..i] == items;
      return 0;
    }

    method ParseField(f: Field, current: (Kind, string)) returns (ret: int)
      modifies this
      ensures ret == 0 || ret == -1
      ensures Parse(ret == 0, Abs(), Some(current)) == OnField(Parse(true, old(Abs()), Some(current)), f, supports)
    {
      match f {
        case Monitoring(value) =>
          var e := Lookup(Some(current));
          if value == "MONITOR_ONE_CPU_PER_SOCKET" && e.Some? {
            UpdateCurrent(current, e.value.(kind := OneCpu));
          } else if value == "MONITOR_ALL_CPU_PER_SOCKET" && e.Some? {
            UpdateCurrent(current, e.value.(kind := AllCpus));
          } else {
            return -1;
          }
          ret := 0;
        case Array(items) => ret := ParseEventArray(items, current);
        case Unknown => ret := -1;
      }
    }

    /** One group of iter_on_event_group_config. */
    method ParseGroup(k: Kind, g: GroupDoc) returns (ret: int)
      modifies this
      ensures ret == 0 || ret == -1
      ensures forall c :: var p := OnGroup(Parse(true, old(Abs()), c), k, g, supports);
        p.ok == (ret == 0) && p.tables == Abs() && (p.ok ==> p.current == Some((k, g.name)))
    {
      if !g.isDocument {
        return -1;
      }
      SelectGroup(k, g.name);
      var current := (k, g.name);
      ghost var start := Parse(true, Abs(), Some(current));
      var i := 0;
      while i < |g.fields|
        invariant i <= |g.fields|
        invariant OnFields(start, g.fields[..i], supports) == Parse(true, Abs(), Some(current))
      {
        assert g.fields[..i + 1][..i] == g.fields[..i];
        var parsed := ParseField(g.fields[i], current);
        i := i + 1;
        if parsed != 0 {
          FieldsStopThere(start, g.fields, i, supports);
          return -1;
        }
      }
      assert g.fields[..i] == g.fields;
      return 0;
    }

    /** iter_on_event_group_config: the groups of one section. */
    method IterOnEventGroupConfig(k: Kind, groups: seq<GroupDoc>) returns (ret: int)
      modifies this
      ensures ret == 0 || ret == -1
      ensures var p := OnGroups(Parse(true, old(Abs()), None), k, groups, supports); p.ok == (ret == 0) && p.tables == Abs()
    {
      ghost var start := Parse(true, Abs(), None);
      var i := 0;
      while i < |groups|
        invariant i <= |groups|
        invariant var p := OnGroups(start, k, groups[..i], supports); p.ok && p.tables == Abs()
      {
        assert groups[..i + 1][..i] == groups[..i];
        ghost var before := OnGroups(start, k, groups[..i], supports);
        assert before == Parse(true, Abs(), before.current);
        var parsed := ParseGroup(k, groups[i]);
        i := i + 1;
        if parsed != 0 {
          GroupsStopThere(start, k, groups, i, supports);
          return -1;
        }
      }
      assert groups[..i] == groups;
      return 0;
    }
  }

  lemma {:induction false} ItemsStopThere(p: Parse, items: seq<Item>, i: nat, supports: Support)
    requires i <= |items| && !OnItems(p, items[..i], supports).ok
    ensures OnItems(p, items, supports) == OnItems(p, items[..i], supports)
  {
    if i < |items| {
      assert items[..|items| - 1][..i] == items[..i];
      ItemsStopThere(p, items[..|items| - 1], i, supports);
    } else {
      assert items[..i] == items;
    }
  }

  lemma {:induction false} FieldsStopThere(p: Parse, fields: seq<Field>, i: nat, supports: Support)
    requires i <= |fields| && !OnFields(p, fields[..i], supports).ok
    ensures OnFields(p, fields, supports) == OnFields(p, fields[..i], supports)
  {
    if i < |fields| {
      assert fields[..|fields| - 1][..i] == fields[..i];
      FieldsStopThere(p, fields[..|fields| - 1], i, supports);
    } else {
      assert fields[..i] == fields;
    }
  }

  lemma {:induction false} GroupsStopThere(p: Parse, k: Kind, groups: seq<GroupDoc>, i: nat, supports: Support)
    requires i <= |groups| && !OnGroups(p, k, groups[..i], supports).ok
    ensures OnGroups(p, k, groups, supports) == OnGroups(p, k, groups[..i], supports)
  {
    if i < |groups| {
      assert groups[..|groups| - 1][..i] == groups[..i];
      GroupsStopThere(p, k, groups[..|groups| - 1], i, supports);
    } else {
      assert groups[..i] == groups;
    }
  }

  lemma StopsThere(p: Parse, options: seq<Choice>, i: nat, supports: Support)
    requires i <= |options| && !OnOptions(p, options[..i], supports).ok
    ensures OnOptions(p, options, supports) == OnOptions(p, options[..i], supports)
  {
    assert options == options[..i] + options[i..];
    OptionsConcat(p, options[..i], options[i..], supports);
    OptionsStop(OnOptions(p, options[..i], supports), options[i..], supports);
  }
}
