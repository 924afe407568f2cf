/** What a whole call of get_callchains achieves in the protocol of the ring, and that calls and
    publications are always possible. */
module RingCalls {
  import opened Text
  import opened StrBuffers
  import opened Callchains
  import opened Records
  import opened PerfRing
  import opened RingProtocol

  // ----- Runs

  function Then(r: Option<State>, a: Action, dwfl: Symbols): Option<State> {
    if r.Some? && Enabled(r.value, a) then Some(Next(r.value, a, dwfl)) else None
  }

  lemma FromSnoc(s: State, actions: seq<Action>, a: Action, dwfl: Symbols)
    ensures From(s, actions + [a], dwfl) == Then(From(s, actions, dwfl), a, dwfl)
  {
    assert (actions + [a])[..|actions|] == actions;
  }

  lemma {:induction false} FromConcat(s: State, a: seq<Action>, b: seq<Action>, dwfl: Symbols)
    requires From(s, a, dwfl).Some?
    ensures From(s, a + b, dwfl) == From(From(s, a, dwfl).value, b, dwfl)
  {
    if b == [] {
      AddNothing(s, a, dwfl);
    } else {
      FromConcat(s, a, b[..|b| - 1], dwfl);
      FromLast(s, From(s, a, dwfl).value, a, b, b[..|b| - 1], b[|b| - 1], dwfl);
    }
  }

  lemma FromLast(s: State, m: State, a: seq<Action>, b: seq<Action>, before: seq<Action>, last: Action, dwfl: Symbols)
    requires b == before + [last] && From(s, a + before, dwfl) == From(m, before, dwfl)
    ensures From(s, a + b, dwfl) == From(m, b, dwfl)
  {
    FromNext(s, m, a, before, last, dwfl);
  }

  lemma AddNothing(s: State, a: seq<Action>, dwfl: Symbols)
    ensures From(s, a + [], dwfl) == From(s, a, dwfl)
  {
    assert a + [] == a;
  }

  lemma FromNext(s: State, m: State, a: seq<Action>, before: seq<Action>, last: Action, dwfl: Symbols)
    requires From(s, a + before, dwfl) == From(m, before, dwfl)
    ensures From(s, a + (before + [last]), dwfl) == From(m, before + [last], dwfl)
  {
    FromSnoc(s, a + before, last, dwfl);
    FromSnoc(m, before, last, dwfl);
    PerfRing.Associative(a, before, [last]);
  }

  lemma OneAction(s: State, a: Action, dwfl: Symbols)
    requires Enabled(s, a)
    ensures From(s, [a], dwfl) == Some(Next(s, a, dwfl))
  {
    assert [a][..0] == [];
  }

  lemma FirstThen(s: State, a: Action, rest: seq<Action>, dwfl: Symbols)
    requires Enabled(s, a)
    ensures From(s, [a] + rest, dwfl) == From(Next(s, a, dwfl), rest, dwfl)
  {
    OneAction(s, a, dwfl);
    FromConcat(s, [a], rest, dwfl);
  }

  lemma LastAction(s: State, actions: seq<Action>, m: State, a: Action, dwfl: Symbols)
    requires From(s, actions, dwfl) == Some(m) && Enabled(m, a)
    ensures From(s, actions + [a], dwfl) == Some(Next(m, a, dwfl))
  {
    FromSnoc(s, actions, a, dwfl);
  }

  // ----- While a call is under way

  /** A call that started in `s` is still reading in `m`: it stops at the head there was then, and
      has appended exactly the pieces of the records it has given back. */
  ghost predicate Under(s: State, m: State, dwfl: Symbols) {
    && m.consumer.Reading? && m.consumer.head == s.head && m.consumer.upTo == |s.published|
    && s.published <= m.published && m.delivered == s.delivered
    && s.consumed <= m.consumed <= |s.published|
    && Texts(m.consumer.log) == SamplesPieces(Chains(s.published), s.consumed, m.consumed, dwfl)
  }

  lemma PollStarts(s: State, dwfl: Symbols)
    requires Inv(s, dwfl) && s.consumer.Idle? && s.tail < s.head
    ensures Under(s, Next(s, Poll(true), dwfl), dwfl)
  {}

  lemma AdvanceUnder(s: State, m: State, granted: set<nat>, dwfl: Symbols)
    requires Inv(m, dwfl) && Under(s, m, dwfl) && Enabled(m, Advance(granted))
    ensures Under(s, AfterAdvance(m, granted, dwfl), dwfl)
  {
    AdvanceTakes(m, granted, dwfl);
    assert m.published[m.consumed] == s.published[m.consumed];
    RenderedWhole(s.published[m.consumed], dwfl);
    var more := Granting(Rendered(m.consumer.got, dwfl), granted);
    GrantingTexts(Rendered(m.consumer.got, dwfl), granted);
    TextsConcat(m.consumer.log, more);
    PiecesNext(s.published, s.consumed, m.consumed, dwfl);
  }

  lemma StepUnder(s: State, m: State, a: Action, dwfl: Symbols)
    requires Inv(m, dwfl) && Under(s, m, dwfl) && Enabled(m, a) && !a.Return?
    ensures Under(s, Next(m, a, dwfl), dwfl)
  {
    if a.Advance? {
      AdvanceUnder(s, m, a.granted, dwfl);
    }
  }

  ghost predicate NoReturn(actions: seq<Action>) { forall i :: 0 <= i < |actions| ==> !actions[i].Return? }

  lemma {:induction false} RunUnder(s: State, m: State, actions: seq<Action>, dwfl: Symbols)
    requires Inv(m, dwfl) && Under(s, m, dwfl) && NoReturn(actions) && From(m, actions, dwfl).Some?
    ensures Inv(From(m, actions, dwfl).value, dwfl) && Under(s, From(m, actions, dwfl).value, dwfl)
  {
    if actions != [] {
      var before, last := actions[..|actions| - 1], actions[|actions| - 1];
      assert forall i :: 0 <= i < |before| ==> before[i] == actions[i];
      RunUnder(s, m, before, dwfl);
      var r := From(m, before, dwfl).value;
      StepUnder(s, r, last, dwfl);
      StepKeeps(r, last, dwfl);
    }
  }

  /** A whole call: it returned one more string buffer, the tail is at the head there was when it
      started, and it appended exactly the pieces of the records that were unread then, in order. */
  ghost predicate Called(s: State, t: State, dwfl: Symbols) {
    && t.consumer.Idle? && t.tail == s.head && t.consumed == |s.published|
    && |t.delivered| == |s.delivered| + 1 && t.delivered[..|s.delivered|] == s.delivered
    && s.consumed <= |s.published|
    && Texts(t.delivered[|s.delivered|]) == SamplesPieces(Chains(s.published), s.consumed, |s.published|, dwfl)
  }

  lemma ReturnEnds(s: State, m: State, dwfl: Symbols)
    requires Inv(m, dwfl) && Under(s, m, dwfl) && Enabled(m, Return)
    ensures Called(s, Next(m, Return, dwfl), dwfl)
  {
    TailRecord(m, dwfl);
  }

  /** The actions from the start of a call to its return, whatever the producer does in between. */
  ghost predicate IsCall(actions: seq<Action>) {
    && |actions| >= 2 && actions[0] == Poll(true) && actions[|actions| - 1] == Return
    && NoReturn(actions[..|actions| - 1])
  }

  /** In every run, a call that starts with unread records and returns has read all of them, none
      of those published meanwhile, and leaves the tail at the head it saw. */
  lemma CallsReachTheirHead(data: seq<Byte>, before: seq<Action>, call: seq<Action>, dwfl: Symbols)
    requires 0 < |data| && Reach(data, before + call, dwfl).Some? && IsCall(call)
    requires Reach(data, before, dwfl).Some?
    requires var s := Reach(data, before, dwfl).value; s.consumer.Idle? && s.tail < s.head
    ensures Called(Reach(data, before, dwfl).value, Reach(data, before + call, dwfl).value, dwfl)
  {
    var s := Reach(data, before, dwfl).value;
    ReachableInv(data, before, dwfl);
    FromConcat(Start(data), before, call, dwfl);
    CallFrom(s, call, dwfl);
  }

  lemma CallFrom(s: State, call: seq<Action>, dwfl: Symbols)
    requires Inv(s, dwfl) && s.consumer.Idle? && s.tail < s.head
    requires IsCall(call) && From(s, call, dwfl).Some?
    ensures Called(s, From(s, call, dwfl).value, dwfl)
  {
    var middle := Between(call);
    MiddleOf(s, [Poll(true)] + middle, dwfl);
    FirstThen(s, Poll(true), middle, dwfl);
    WholeCall(s, middle, dwfl);
  }

  lemma Between(call: seq<Action>) returns (middle: seq<Action>)
    requires IsCall(call)
    ensures call == ([Poll(true)] + middle) + [Return] && NoReturn(middle)
  {
    middle := call[1..|call| - 1];
    assert call[..|call| - 1] == [Poll(true)] + middle;
    assert forall i :: 0 <= i < |middle| ==> middle[i] == call[..|call| - 1][i + 1];
  }

  lemma MiddleOf(s: State, before: seq<Action>, dwfl: Symbols)
    requires From(s, before + [Return], dwfl).Some?
    ensures var m := From(s, before, dwfl);
      m.Some? && Enabled(m.value, Return) && From(s, before + [Return], dwfl) == Some(Next(m.value, Return, dwfl))
  {
    FromSnoc(s, before, Return, dwfl);
  }

  lemma WholeCall(s: State, middle: seq<Action>, dwfl: Symbols)
    requires Inv(s, dwfl) && s.consumer.Idle? && s.tail < s.head && NoReturn(middle)
    requires var m := From(Next(s, Poll(true), dwfl), middle, dwfl); m.Some? && Enabled(m.value, Return)
    ensures Called(s, Next(From(Next(s, Poll(true), dwfl), middle, dwfl).value, Return, dwfl), dwfl)
  {
    PollStarts(s, dwfl);
    StepKeeps(s, Poll(true), dwfl);
    RunUnder(s, Next(s, Poll(true), dwfl), middle, dwfl);
    ReturnEnds(s, From(Next(s, Poll(true), dwfl), middle, dwfl).value, dwfl);
  }

  // ----- A call can always be made

  predicate IsReaders(a: Action) { a.Poll? || a.ReadByte? || a.Advance? || a.Return? }

  /** Steps of the reader alone. */
  ghost predicate ReaderOnly(actions: seq<Action>) { forall i :: 0 <= i < |actions| ==> IsReaders(actions[i]) }

  function Everything(n: nat): (all: set<nat>)
    ensures forall i: nat :: i in all <==> i < n
  {
    if n == 0 then {} else Everything(n - 1) + {n - 1}
  }

  /** The next step of a call under way, with every resize granted. */
  function Step(m: State, dwfl: Symbols): Action
    requires m.consumer.Reading?
  {
    if m.consumer.head <= m.tail then Return
    else if Complete(m.consumer.got) then Advance(Everything(|Rendered(m.consumer.got, dwfl)|))
    else ReadByte
  }

  lemma EverythingGranted(log: seq<Piece>, texts: seq<CString>)
    requires AllGranted(log)
    ensures AllGranted(log + Granting(texts, Everything(|texts|)))
  {}

  lemma StepEnabled(m: State, dwfl: Symbols)
    requires 0 < |m.data| && m.consumer.Reading?
    ensures Enabled(m, Step(m, dwfl))
  {}

  lemma StepGrants(m: State, dwfl: Symbols)
    requires 0 < |m.data| && m.consumer.Reading? && AllGranted(m.consumer.log)
    ensures Enabled(m, Step(m, dwfl))
    ensures var r := Next(m, Step(m, dwfl), dwfl);
      if Step(m, dwfl).Return? then r.delivered == m.delivered + [m.consumer.log]
      else r.consumer.Reading? && AllGranted(r.consumer.log)
  {
    StepEnabled(m, dwfl);
    if Step(m, dwfl).Advance? {
      EverythingGranted(m.consumer.log, Rendered(m.consumer.got, dwfl));
    }
  }

  /** Actions that finish a call: of the reader alone, up to the return. */
  ghost predicate Finishing(actions: seq<Action>) {
    && actions != [] && actions[|actions| - 1] == Return
    && ReaderOnly(actions) && NoReturn(actions[..|actions| - 1])
  }

  lemma FinishingLater(a: Action, rest: seq<Action>)
    requires IsReaders(a) && !a.Return? && Finishing(rest)
    ensures Finishing([a] + rest)
  {
    assert ([a] + rest)[..|rest|] == [a] + rest[..|rest| - 1];
  }

  ghost predicate GrantedLast(t: Option<State>) {
    t.Some? && t.value.delivered != [] && AllGranted(t.value.delivered[|t.value.delivered| - 1])
  }

  lemma ReturnFinishes(m: State, dwfl: Symbols)
    requires Enabled(m, Return) && AllGranted(m.consumer.log)
    ensures Finishing([Return]) && GrantedLast(From(m, [Return], dwfl))
  {
    OneAction(m, Return, dwfl);
  }

  lemma OneStep(m: State, dwfl: Symbols)
    requires Inv(m, dwfl) && m.consumer.Reading? && AllGranted(m.consumer.log) && !Step(m, dwfl).Return?
    ensures Enabled(m, Step(m, dwfl)) && IsReaders(Step(m, dwfl))
    ensures var r := Next(m, Step(m, dwfl), dwfl);
      Inv(r, dwfl) && r.consumer.Reading? && AllGranted(r.consumer.log) && 0 < Work(r) < Work(m)
  {
    StepGrants(m, dwfl);
    CallsEnd(m, Step(m, dwfl), dwfl);
    StepKeeps(m, Step(m, dwfl), dwfl);
    CallHasStep(Next(m, Step(m, dwfl), dwfl), dwfl);
  }

  /** From any state within a call, the reader can finish it on its own. */
  lemma {:induction false} Finish(m: State, dwfl: Symbols) returns (actions: seq<Action>)
    requires Inv(m, dwfl) && m.consumer.Reading? && AllGranted(m.consumer.log)
    ensures Finishing(actions) && GrantedLast(From(m, actions, dwfl))
    decreases Work(m)
  {
    var a := Step(m, dwfl);
    StepGrants(m, dwfl);
    if a.Return? {
      actions := [Return];
      ReturnFinishes(m, dwfl);
    } else {
      OneStep(m, dwfl);
      var rest := Finish(Next(m, a, dwfl), dwfl);
      actions := [a] + rest;
      FinishingLater(a, rest);
      FirstThen(m, a, rest, dwfl);
    }
  }

  /** From every reachable state between two calls with unread records, the reader on its own can
      make a call, and the string it then returns is the report of exactly those records. */
  lemma UnreadCanBeRead(data: seq<Byte>, before: seq<Action>, dwfl: Symbols) returns (call: seq<Action>)
    requires 0 < |data| && Reach(data, before, dwfl).Some?
    requires var s := Reach(data, before, dwfl).value; s.consumer.Idle? && s.tail < s.head
    ensures IsCall(call) && ReaderOnly(call) && Reach(data, before + call, dwfl).Some?
    ensures var s, t := Reach(data, before, dwfl).value, Reach(data, before + call, dwfl).value;
      && Called(s, t, dwfl)
      && Run(INITIAL_CAPACITY, t.delivered[|s.delivered|]).text == Report(Chains(s.published)[s.consumed..], dwfl)
  {
    var s := Reach(data, before, dwfl).value;
    ReachableInv(data, before, dwfl);
    call := CallAndFinish(s, dwfl);
    FromConcat(Start(data), before, call, dwfl);
    CallFrom(s, call, dwfl);
    CalledReport(s, From(s, call, dwfl).value, dwfl);
  }

  lemma CallAndFinish(s: State, dwfl: Symbols) returns (call: seq<Action>)
    requires Inv(s, dwfl) && s.consumer.Idle? && s.tail < s.head
    ensures IsCall(call) && ReaderOnly(call) && GrantedLast(From(s, call, dwfl))
  {
    StepKeeps(s, Poll(true), dwfl);
    var rest := Finish(Next(s, Poll(true), dwfl), dwfl);
    call := [Poll(true)] + rest;
    FinishingLater(Poll(true), rest);
    FirstThen(s, Poll(true), rest, dwfl);
  }

  lemma CalledReport(s: State, t: State, dwfl: Symbols)
    requires Called(s, t, dwfl) && GrantedLast(Some(t))
    ensures Run(INITIAL_CAPACITY, t.delivered[|s.delivered|]).text == Report(Chains(s.published)[s.consumed..], dwfl)
  {
    GrantedReport(Chains(s.published), s.consumed, t.delivered[|s.delivered|], dwfl);
  }

  /** A call that finds nothing unread, or gets no string buffer, changes nothing. */
  lemma OtherCallsReturnNull(data: seq<Byte>, before: seq<Action>, available: bool, dwfl: Symbols)
    requires 0 < |data| && Reach(data, before, dwfl).Some?
    requires var s := Reach(data, before, dwfl).value; s.consumer.Idle? && (s.consumed == |s.published| || !available)
    ensures Reach(data, before + [Poll(available)], dwfl) == Reach(data, before, dwfl)
  {
    ReachableInv(data, before, dwfl);
    var s := Reach(data, before, dwfl).value;
    assert s.published[..|s.published|] == s.published;
    LastAction(Start(data), before, s, Poll(available), dwfl);
  }

  // ----- A record can always be published

  lemma {:induction false} WriteRest(m: State, dwfl: Symbols) returns (actions: seq<Action>)
    requires 0 < |m.data| && m.producer.Writing? && m.producer.written <= Size(m.producer.record)
    ensures From(m, actions, dwfl).Some?
    ensures var t, r := From(m, actions, dwfl).value, m.producer.record;
      && t.producer == Ready && t.published == m.published + [r] && t.head == m.head + Size(r)
      && t.tail == m.tail && t.consumer == m.consumer && t.consumed == m.consumed && t.delivered == m.delivered
    decreases Size(m.producer.record) - m.producer.written
  {
    if m.producer.written == Size(m.producer.record) {
      actions := [Publish];
      OneAction(m, Publish, dwfl);
    } else {
      var rest := WriteRest(Next(m, WriteByte, dwfl), dwfl);
      actions := [WriteByte] + rest;
      FirstThen(m, WriteByte, rest, dwfl);
    }
  }

  /** From every reachable state in which the producer is ready, a record that fits the free space
      can be published, and nothing else changes but the bytes of the buffer. */
  lemma RecordsCanBePublished(data: seq<Byte>, before: seq<Action>, r: Record, dwfl: Symbols) returns (actions: seq<Action>)
    requires 0 < |data| && Reach(data, before, dwfl).Some?
    requires var s := Reach(data, before, dwfl).value; s.producer.Ready? && s.head + Size(r) <= s.tail + |s.data|
    ensures Reach(data, before + actions, dwfl).Some?
    ensures var s, t := Reach(data, before, dwfl).value, Reach(data, before + actions, dwfl).value;
      && t.published == s.published + [r] && t.head == s.head + Size(r) && t.producer == Ready
      && t.tail == s.tail && t.consumer == s.consumer && t.consumed == s.consumed && t.delivered == s.delivered
  {
    var s := Reach(data, before, dwfl).value;
    ReachableInv(data, before, dwfl);
    var rest := WriteRest(Next(s, Reserve(r), dwfl), dwfl);
    actions := [Reserve(r)] + rest;
    FirstThen(s, Reserve(r), rest, dwfl);
    FromConcat(Start(data), before, actions, dwfl);
  }
}
