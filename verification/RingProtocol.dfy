/** The perf ring as a protocol: the kernel writes and publishes records while the reader of
    src/perf.c reads and gives bytes back, one byte at a time and in any interleaving. */
module RingProtocol {
  import opened Text
  import opened StrBuffers
  import opened Callchains
  import opened Records
  import opened PerfRing

  /** The producer copies a record past the head before it publishes it. */
  datatype Producer = Ready | Writing(record: Record, written: nat)

  /** A call of get_callchains reads the head once, as the end of the first `upTo` records,
      and rebuilds one record at a time in `got`; `log` is what it has appended to its string
      buffer, some of it perhaps refused. */
  datatype Consumer = Idle | Reading(head: nat, upTo: nat, log: seq<Piece>, got: seq<Byte>)

  /** The ring, both sides, and the history: what was published, how much of it was consumed,
      and what was appended in each call that returned. */
  datatype State = State(
    data: seq<Byte>, head: nat, tail: nat,
    producer: Producer, consumer: Consumer,
    published: seq<Record>, consumed: nat, delivered: seq<seq<Piece>>)

  /** Poll says whether the string buffer can be allocated, Advance which resizes are granted. */
  datatype Action =
    | Reserve(record: Record)
    | WriteByte
    | Publish
    | Poll(available: bool)
    | ReadByte
    | Advance(granted: set<nat>)
    | Return

  /** A rebuilt record: its header and as many bytes as its size field says. */
  predicate Complete(got: seq<Byte>) { HEADER_SIZE <= |got| && SizeField(got) <= |got| }

  /** What append_symbols_from_sample appends for a rebuilt record. */
  function Rendered(got: seq<Byte>, dwfl: Symbols): seq<CString> {
    if ReadableAt(got, 0) then SamplePieces(ReadChain(got, 0), dwfl) else []
  }

  /** The pieces of a record, of which those at `granted` get a resize if they need one. */
  function Granting(texts: seq<CString>, granted: set<nat>): seq<Piece> {
    seq(|texts|, i requires 0 <= i < |texts| => Piece(texts[i], i in granted))
  }

  lemma GrantingTexts(texts: seq<CString>, granted: set<nat>)
    ensures Texts(Granting(texts, granted)) == texts
  {}

  predicate Enabled(s: State, a: Action) {
    match a
    case Reserve(r) => s.producer.Ready? && s.head + Size(r) <= s.tail + |s.data|
    case WriteByte => s.producer.Writing? && s.producer.written < Size(s.producer.record) && 0 < |s.data|
    case Publish => s.producer.Writing? && s.producer.written == Size(s.producer.record)
    case Poll(_) => s.consumer.Idle?
    case ReadByte => s.consumer.Reading? && s.tail < s.consumer.head && !Complete(s.consumer.got) && 0 < |s.data|
    case Advance(_) => s.consumer.Reading? && s.tail < s.consumer.head && Complete(s.consumer.got)
    case Return => s.consumer.Reading? && s.consumer.head <= s.tail
  }

  function AfterWrite(s: State): State
    requires Enabled(s, WriteByte)
  {
    var Writing(r, k) := s.producer;
    s.(data := Written(s.data, s.head, Encode(r), k), producer := Writing(r, k + 1))
  }

  function AfterPublish(s: State): State
    requires Enabled(s, Publish)
  {
    var r := s.producer.record;
    s.(head := s.head + Size(r), published := s.published + [r], producer := Ready)
  }

  function AfterRead(s: State): State
    requires Enabled(s, ReadByte)
  {
    var c := s.consumer;
    s.(consumer := c.(got := c.got + [s.data[Slot(s.tail + |c.got|, |s.data|)]]))
  }

  function AfterAdvance(s: State, granted: set<nat>, dwfl: Symbols): State
    requires Enabled(s, Advance(granted))
  {
    var c := s.consumer;
    s.(tail := s.tail + SizeField(c.got), consumed := s.consumed + 1,
       consumer := c.(log := c.log + Granting(Rendered(c.got, dwfl), granted), got := []))
  }

  function Next(s: State, a: Action, dwfl: Symbols): State
    requires Enabled(s, a)
  {
    match a
    case Reserve(r) => s.(producer := Writing(r, 0))
    case WriteByte => AfterWrite(s)
    case Publish => AfterPublish(s)
    case Poll(available) =>
      if s.head == s.tail || !available then s else s.(consumer := Reading(s.head, |s.published|, [], []))
    case ReadByte => AfterRead(s)
    case Advance(granted) => AfterAdvance(s, granted, dwfl)
    case Return => s.(delivered := s.delivered + [s.consumer.log], consumer := Idle)
  }

  function Start(data: seq<Byte>): State {
    State(data, 0, 0, Ready, Idle, [], 0, [])
  }

  /** The state after a run of actions from a state, if each was enabled in its turn. */
  function From(s: State, actions: seq<Action>, dwfl: Symbols): Option<State> {
    if actions == [] then Some(s)
    else
      match From(s, actions[..|actions| - 1], dwfl)
      case None => None
      case Some(r) =>
        var a := actions[|actions| - 1];
        if Enabled(r, a) then Some(Next(r, a, dwfl)) else None
  }

  function Reach(data: seq<Byte>, actions: seq<Action>, dwfl: Symbols): Option<State> { From(Start(data), actions, dwfl) }

  // ----- The invariant

  ghost predicate RingInv(data: seq<Byte>, head: nat, tail: nat, published: seq<Record>, consumed: nat) {
    && 0 < |data|
    && consumed <= |published|
    && tail == |Stream(published[..consumed])|
    && head == |Stream(published)|
    && tail <= head <= tail + |data|
    && Holds(data, tail, head, Stream(published))
  }

  ghost predicate ProducerInv(data: seq<Byte>, head: nat, tail: nat, producer: Producer) {
    producer.Writing? ==>
      var Writing(r, k) := producer;
      && 0 < |data|
      && k <= Size(r) && head + Size(r) <= tail + |data|
      && forall j :: 0 <= j < k ==> data[Slot(head + j, |data|)] == Encode(r)[j]
  }

  ghost predicate ConsumerInv(c: Consumer, published: seq<Record>, consumed: nat) {
    c.Reading? ==>
      && consumed <= c.upTo <= |published|
      && c.head == |Stream(published[..c.upTo])|
      && (c.got != [] ==> consumed < c.upTo && c.got <= Encode(published[consumed]))
  }

  function PendingLog(c: Consumer): seq<Piece> {
    if c.Reading? then c.log else []
  }

  /** Everything appended in some calls, in order. */
  function Joined(logs: seq<seq<Piece>>): seq<Piece> {
    if logs == [] then [] else Joined(logs[..|logs| - 1]) + logs[|logs| - 1]
  }

  /** The pieces of all these records, in order. */
  function AllPieces(rs: seq<Record>, dwfl: Symbols): seq<CString> {
    SamplesPieces(Chains(rs), 0, |rs|, dwfl)
  }

  ghost predicate TextInv(delivered: seq<seq<Piece>>, pending: seq<Piece>, published: seq<Record>, consumed: nat, dwfl: Symbols) {
    && consumed <= |published|
    && Texts(Joined(delivered) + pending) == AllPieces(published[..consumed], dwfl)
  }

  ghost predicate Inv(s: State, dwfl: Symbols) {
    && RingInv(s.data, s.head, s.tail, s.published, s.consumed)
    && ProducerInv(s.data, s.head, s.tail, s.producer)
    && ConsumerInv(s.consumer, s.published, s.consumed)
    && TextInv(s.delivered, PendingLog(s.consumer), s.published, s.consumed, dwfl)
  }

  // ----- Every step keeps it

  lemma WriteRing(data: seq<Byte>, head: nat, tail: nat, published: seq<Record>, consumed: nat, r: Record, k: nat)
    requires RingInv(data, head, tail, published, consumed)
    requires k < Size(r) && ProducerInv(data, head, tail, Writing(r, k))
    ensures var data' := Written(data, head, Encode(r), k);
      RingInv(data', head, tail, published, consumed) && ProducerInv(data', head, tail, Writing(r, k + 1))
  {
    WriteSlot(data, tail, head, Stream(published), Encode(r), k);
  }

  lemma WriteKeeps(s: State, dwfl: Symbols)
    requires Inv(s, dwfl) && Enabled(s, WriteByte)
    ensures Inv(AfterWrite(s), dwfl)
  {
    var Writing(r, k) := s.producer;
    WriteRing(s.data, s.head, s.tail, s.published, s.consumed, r, k);
    ReaderUntouched(s, AfterWrite(s), dwfl);
  }

  lemma ReaderUntouched(s: State, s': State, dwfl: Symbols)
    requires Inv(s, dwfl)
    requires s'.consumer == s.consumer && s'.published == s.published
    requires s'.consumed == s.consumed && s'.delivered == s.delivered
    requires RingInv(s'.data, s'.head, s'.tail, s'.published, s'.consumed)
    requires ProducerInv(s'.data, s'.head, s'.tail, s'.producer)
    ensures Inv(s', dwfl)
  {}

  /** Publishing what was written past the head. */
  lemma PublishRing(data: seq<Byte>, head: nat, tail: nat, published: seq<Record>, consumed: nat, r: Record)
    requires RingInv(data, head, tail, published, consumed)
    requires ProducerInv(data, head, tail, Writing(r, Size(r)))
    ensures RingInv(data, head + Size(r), tail, published + [r], consumed)
  {
    StreamSnoc(published, r);
    PrefixSnoc(published, r, consumed);
    PublishHolds(data, tail, head, Stream(published), Encode(r));
  }

  lemma PublishKeeps(s: State, dwfl: Symbols)
    requires Inv(s, dwfl) && Enabled(s, Publish)
    ensures Inv(AfterPublish(s), dwfl)
  {
    var r := s.producer.record;
    PublishRing(s.data, s.head, s.tail, s.published, s.consumed, r);
    PublishReader(s.consumer, s.delivered, s.published, s.consumed, r, dwfl);
  }

  lemma PublishReader(c: Consumer, delivered: seq<seq<Piece>>, published: seq<Record>, consumed: nat, r: Record, dwfl: Symbols)
    requires ConsumerInv(c, published, consumed) && TextInv(delivered, PendingLog(c), published, consumed, dwfl)
    ensures ConsumerInv(c, published + [r], consumed) && TextInv(delivered, PendingLog(c), published + [r], consumed, dwfl)
  {
    assert (published + [r])[..consumed] == published[..consumed];
    if c.Reading? {
      assert (published + [r])[..c.upTo] == published[..c.upTo];
    }
  }

  lemma PollKeeps(s: State, available: bool, dwfl: Symbols)
    requires Inv(s, dwfl) && Enabled(s, Poll(available))
    ensures Inv(Next(s, Poll(available), dwfl), dwfl)
  {
    assert s.published[..|s.published|] == s.published;
  }

  /** Where the call stands: the next record to read lies entirely before the head it saw. */
  lemma TailRecord(s: State, dwfl: Symbols)
    requires Inv(s, dwfl) && s.consumer.Reading?
    ensures s.tail <= s.consumer.head <= s.head
    ensures s.tail < s.consumer.head <==> s.consumed < s.consumer.upTo
    ensures s.consumed < s.consumer.upTo ==>
      var r := s.published[s.consumed];
      && s.tail + Size(r) == |Stream(s.published[..s.consumed + 1])| <= s.consumer.head
      && Same(Stream(s.published), s.tail, Encode(r), 0, Size(r))
  {
    StreamOrder(s.published, s.consumed, s.consumer.upTo);
    if s.consumed < s.consumer.upTo {
      RecordAt(s.published, s.consumed);
      StreamOrder(s.published, s.consumed + 1, s.consumer.upTo);
    }
  }

  lemma PartialRecord(r: Record, got: seq<Byte>)
    requires got <= Encode(r)
    ensures Complete(got) <==> |got| == Size(r)
    ensures Complete(got) ==> got == Encode(r) && SizeField(got) == Size(r)
  {
    Fields(r);
    if HEADER_SIZE <= |got| {
      assert got[6..8] == Encode(r)[6..8];
    }
  }

  lemma PrefixGrows(got: seq<Byte>, whole: seq<Byte>)
    requires got <= whole && |got| < |whole|
    ensures got + [whole[|got|]] <= whole
  {}

  /** The byte that ReadByte fetches is the next byte of the record at the tail. */
  lemma ReadKeeps(s: State, dwfl: Symbols)
    requires Inv(s, dwfl) && Enabled(s, ReadByte)
    ensures Inv(AfterRead(s), dwfl)
  {
    TailRecord(s, dwfl);
    var r, k := s.published[s.consumed], |s.consumer.got|;
    PartialRecord(r, s.consumer.got);
    assert Stream(s.published)[s.tail + k] == Encode(r)[k];
    PrefixGrows(s.consumer.got, Encode(r));
  }

  lemma RenderedWhole(r: Record, dwfl: Symbols)
    ensures Rendered(Encode(r), dwfl) == SamplePieces(r.ips, dwfl)
  {
    RecordFields(Encode(r), 0, Encode(r), 0, r);
  }

  /** What Advance gives back is the whole record at the tail, rebuilt. */
  lemma AdvanceTakes(s: State, granted: set<nat>, dwfl: Symbols)
    requires Inv(s, dwfl) && Enabled(s, Advance(granted))
    ensures s.consumed < s.consumer.upTo
    ensures s.consumer.got == Encode(s.published[s.consumed])
    ensures s.tail + SizeField(s.consumer.got) == |Stream(s.published[..s.consumed + 1])| <= s.consumer.head <= s.head
  {
    TailRecord(s, dwfl);
    PartialRecord(s.published[s.consumed], s.consumer.got);
  }

  lemma {:induction false} PiecesPrefix(a: seq<seq<U64>>, b: seq<seq<U64>>, n: nat, dwfl: Symbols)
    requires n <= |a| && a <= b
    ensures SamplesPieces(a, 0, n, dwfl) == SamplesPieces(b, 0, n, dwfl)
  {
    if n > 0 {
      PiecesPrefix(a, b, n - 1, dwfl);
    }
  }

  lemma AllPiecesNext(rs: seq<Record>, c: nat, dwfl: Symbols)
    requires c < |rs|
    ensures AllPieces(rs[..c + 1], dwfl) == AllPieces(rs[..c], dwfl) + SamplePieces(rs[c].ips, dwfl)
  {
    PiecesPrefix(Chains(rs[..c]), Chains(rs[..c + 1]), c, dwfl);
  }

  lemma TextsConcat(a: seq<Piece>, b: seq<Piece>)
    ensures Texts(a + b) == Texts(a) + Texts(b)
  {}

  /** What was appended grows by the pieces of the record given back. */
  lemma AdvanceText(delivered: seq<seq<Piece>>, log: seq<Piece>, more: seq<Piece>, rs: seq<Record>, c: nat, dwfl: Symbols)
    requires c < |rs| && TextInv(delivered, log, rs, c, dwfl)
    requires Texts(more) == SamplePieces(rs[c].ips, dwfl)
    ensures TextInv(delivered, log + more, rs, c + 1, dwfl)
  {
    AllPiecesNext(rs, c, dwfl);
    TextsConcat(Joined(delivered) + log, more);
    PerfRing.Associative(Joined(delivered), log, more);
  }

  lemma AdvanceRing(data: seq<Byte>, head: nat, tail: nat, tail': nat, published: seq<Record>, c: nat, producer: Producer)
    requires c < |published| && tail <= tail' == |Stream(published[..c + 1])| <= head
    requires RingInv(data, head, tail, published, c) && ProducerInv(data, head, tail, producer)
    ensures RingInv(data, head, tail', published, c + 1) && ProducerInv(data, head, tail', producer)
  {}

  lemma AdvanceConsumer(c: Consumer, log: seq<Piece>, published: seq<Record>, consumed: nat)
    requires c.Reading? && ConsumerInv(c, published, consumed) && consumed < c.upTo
    ensures ConsumerInv(c.(log := log, got := []), published, consumed + 1)
  {}

  lemma AdvanceKeepsRing(s: State, granted: set<nat>, dwfl: Symbols)
    requires Inv(s, dwfl) && Enabled(s, Advance(granted))
    ensures var s' := AfterAdvance(s, granted, dwfl);
      && RingInv(s'.data, s'.head, s'.tail, s'.published, s'.consumed)
      && ProducerInv(s'.data, s'.head, s'.tail, s'.producer)
      && ConsumerInv(s'.consumer, s'.published, s'.consumed)
  {
    AdvanceTakes(s, granted, dwfl);
    var c := s.consumer;
    var s' := AfterAdvance(s, granted, dwfl);
    AdvanceRing(s.data, s.head, s.tail, s'.tail, s.published, s.consumed, s.producer);
    AdvanceConsumer(c, s'.consumer.log, s.published, s.consumed);
    assert s'.data == s.data && s'.head == s.head && s'.published == s.published && s'.producer == s.producer;
  }

  lemma AdvanceKeepsText(s: State, granted: set<nat>, dwfl: Symbols)
    requires Inv(s, dwfl) && Enabled(s, Advance(granted))
    ensures var s' := AfterAdvance(s, granted, dwfl);
      TextInv(s'.delivered, PendingLog(s'.consumer), s'.published, s'.consumed, dwfl)
  {
    AdvanceTakes(s, granted, dwfl);
    RenderedWhole(s.published[s.consumed], dwfl);
    GrantingTexts(Rendered(s.consumer.got, dwfl), granted);
    AdvanceText(s.delivered, s.consumer.log, Granting(Rendered(s.consumer.got, dwfl), granted), s.published, s.consumed, dwfl);
  }

  lemma AdvanceKeeps(s: State, granted: set<nat>, dwfl: Symbols)
    requires Inv(s, dwfl) && Enabled(s, Advance(granted))
    ensures Inv(AfterAdvance(s, granted, dwfl), dwfl)
  {
    AdvanceKeepsRing(s, granted, dwfl);
    AdvanceKeepsText(s, granted, dwfl);
  }

  lemma ReturnKeeps(s: State, dwfl: Symbols)
    requires Inv(s, dwfl) && Enabled(s, Return)
    ensures Inv(Next(s, Return, dwfl), dwfl)
  {
    JoinedSnoc(s.delivered, s.consumer.log);
  }

  lemma JoinedSnoc(logs: seq<seq<Piece>>, log: seq<Piece>)
    ensures Joined(logs + [log]) + [] == Joined(logs) + log
  {
    assert (logs + [log])[..|logs|] == logs;
  }

  lemma StepKeeps(s: State, a: Action, dwfl: Symbols)
    requires Inv(s, dwfl) && Enabled(s, a)
    ensures Inv(Next(s, a, dwfl), dwfl)
  {
    match a {
      case Reserve(_) =>
      case WriteByte => WriteKeeps(s, dwfl);
      case Publish => PublishKeeps(s, dwfl);
      case Poll(available) => PollKeeps(s, available, dwfl);
      case ReadByte => ReadKeeps(s, dwfl);
      case Advance(granted) => AdvanceKeeps(s, granted, dwfl);
      case Return => ReturnKeeps(s, dwfl);
    }
  }

  lemma {:induction false} ReachableInv(data: seq<Byte>, actions: seq<Action>, dwfl: Symbols)
    requires 0 < |data|
    ensures var r := Reach(data, actions, dwfl); r.Some? ==> Inv(r.value, dwfl)
  {
    if actions != [] {
      var before := actions[..|actions| - 1];
      ReachableInv(data, before, dwfl);
      var r := Reach(data, before, dwfl);
      if r.Some? && Enabled(r.value, actions[|actions| - 1]) {
        StepKeeps(r.value, actions[|actions| - 1], dwfl);
      }
    } else {
      var s := Start(data);
      assert s.published[..0] == [];
    }
  }

  // ----- What holds on every run

  /** The strings returned by some calls, given what each appended to its buffer. */
  function Returned(logs: seq<seq<Piece>>): seq<string> {
    seq(|logs|, i requires 0 <= i < |logs| => Run(INITIAL_CAPACITY, logs[i]).text)
  }

  lemma GrantedParts(a: seq<Piece>, b: seq<Piece>)
    requires AllGranted(a + b)
    ensures AllGranted(a) && AllGranted(b)
  {
    forall i | 0 <= i < |a|
      ensures a[i].granted
    {
      assert (a + b)[i] == a[i];
    }
    forall i | 0 <= i < |b|
      ensures b[i].granted
    {
      assert (a + b)[|a| + i] == b[i];
    }
  }

  lemma LogText(log: seq<Piece>)
    requires AllGranted(log)
    ensures Run(INITIAL_CAPACITY, log).text == Flat(Texts(log))
  {
    var empty := Buf(INITIAL_CAPACITY, "", 0);
    TextLaw(empty, log);
    GrantedLaw(empty, log);
  }

  lemma {:induction false} ReturnedText(logs: seq<seq<Piece>>)
    requires AllGranted(Joined(logs))
    ensures Flat(Returned(logs)) == Flat(Texts(Joined(logs)))
  {
    if logs != [] {
      var before, last := logs[..|logs| - 1], logs[|logs| - 1];
      GrantedParts(Joined(before), last);
      ReturnedText(before);
      LogText(last);
      assert Returned(logs)[..|before|] == Returned(before);
      TextsConcat(Joined(before), last);
      FlatConcat(Texts(Joined(before)), Texts(last));
    }
  }

  /** On every run, whatever is refused: between calls, what was appended to the string buffers
      so far is, in order, exactly the pieces of the records before the tail, none lost, repeated
      or reordered; and if no resize was refused, the strings returned are, end to end, their
      report. */
  lemma DeliveredIsReport(data: seq<Byte>, actions: seq<Action>, dwfl: Symbols)
    requires 0 < |data| && Reach(data, actions, dwfl).Some?
    ensures var s := Reach(data, actions, dwfl).value;
      && s.consumed <= |s.published|
      && s.tail == |Stream(s.published[..s.consumed])|
      && (s.consumer.Idle? ==>
           && Texts(Joined(s.delivered)) == AllPieces(s.published[..s.consumed], dwfl)
           && (AllGranted(Joined(s.delivered)) ==>
                Flat(Returned(s.delivered)) == Report(Chains(s.published[..s.consumed]), dwfl)))
  {
    ReachableInv(data, actions, dwfl);
    var s := Reach(data, actions, dwfl).value;
    if s.consumer.Idle? {
      assert Joined(s.delivered) + [] == Joined(s.delivered);
      if AllGranted(Joined(s.delivered)) {
        ReturnedText(s.delivered);
        PiecesText(s.published[..s.consumed], dwfl);
      }
    }
  }

  lemma PiecesText(rs: seq<Record>, dwfl: Symbols)
    ensures Flat(AllPieces(rs, dwfl)) == Report(Chains(rs), dwfl)
  {
    SamplesText(Chains(rs), 0, |rs|, dwfl);
    assert Chains(rs)[0..|rs|] == Chains(rs);
  }

  /** No step changes a byte that is published and not yet given back. */
  lemma UnreadBytesStay(s: State, a: Action, dwfl: Symbols, p: nat)
    requires Inv(s, dwfl) && Enabled(s, a)
    requires Next(s, a, dwfl).tail <= p < s.head
    ensures |Next(s, a, dwfl).data| == |s.data|
    ensures Next(s, a, dwfl).data[Slot(p, |s.data|)] == s.data[Slot(p, |s.data|)]
  {
    if a.WriteByte? {
      WrittenElsewhere(s.data, s.head, Encode(s.producer.record), s.producer.written, p);
    }
  }

  lemma WrittenElsewhere(data: seq<Byte>, head: nat, bytes: seq<Byte>, k: nat, p: nat)
    requires 0 < |data| && k < |bytes| && p < head + k < p + |data|
    ensures Written(data, head, bytes, k)[Slot(p, |data|)] == data[Slot(p, |data|)]
  {
    SlotsDiffer(p, head + k, |data|);
  }

  /** The unbounded queue that the ring refines. */
  datatype Fifo = Fifo(queue: seq<Record>, taken: seq<Record>)

  function Abs(s: State): Fifo
    requires s.consumed <= |s.published|
  {
    Fifo(s.published[s.consumed..], s.published[..s.consumed])
  }

  /** Each step publishes at the back of the queue, takes the record at the front, or leaves
      the queue alone. */
  lemma RefinesFifo(s: State, a: Action, dwfl: Symbols)
    requires Inv(s, dwfl) && Enabled(s, a)
    ensures Next(s, a, dwfl).consumed <= |Next(s, a, dwfl).published|
    ensures var q, q' := Abs(s), Abs(Next(s, a, dwfl));
      match a
      case Publish => q' == q.(queue := q.queue + [s.producer.record])
      case Advance(_) => q.queue != [] && s.consumer.got == Encode(q.queue[0]) &&
                      q' == Fifo(q.queue[1..], q.taken + [q.queue[0]])
      case _ => q' == q
  {
    if a.Advance? {
      AdvanceTakes(s, a.granted, dwfl);
      AbsTake(s.published, s.consumed);
    } else if a.Publish? {
      AbsPublish(s.published, s.consumed, s.producer.record);
    }
  }

  lemma AbsTake(rs: seq<Record>, c: nat)
    requires c < |rs|
    ensures rs[..c + 1] == rs[..c] + [rs[c]] && rs[c..][1..] == rs[c + 1..] && rs[c..][0] == rs[c]
  {}

  lemma AbsPublish(rs: seq<Record>, c: nat, r: Record)
    requires c <= |rs|
    ensures (rs + [r])[c..] == rs[c..] + [r] && (rs + [r])[..c] == rs[..c]
  {}

  /** The work left in the call of the consumer. */
  function Work(s: State): int {
    if s.consumer.Idle? then 0 else 1 + 2 * (s.consumer.head - s.tail) - |s.consumer.got|
  }

  /** Between the tail and the head that the call saw there is at least the rest of a record. */
  lemma WorkLeft(s: State, dwfl: Symbols)
    requires Inv(s, dwfl) && s.consumer.Reading?
    ensures s.tail <= s.consumer.head
    ensures s.tail < s.consumer.head ==>
      |s.consumer.got| <= s.consumer.head - s.tail && (Complete(s.consumer.got) ==> 0 < SizeField(s.consumer.got) == |s.consumer.got|)
    ensures s.tail == s.consumer.head ==> s.consumer.got == []
  {
    TailRecord(s, dwfl);
    if s.consumed < s.consumer.upTo {
      PartialRecord(s.published[s.consumed], s.consumer.got);
    }
  }

  lemma CallHasStep(s: State, dwfl: Symbols)
    requires Inv(s, dwfl) && s.consumer.Reading?
    ensures Enabled(s, ReadByte) || Enabled(s, Advance({})) || Enabled(s, Return)
    ensures Work(s) > 0
  {
    WorkLeft(s, dwfl);
  }

  /** A call always has a step to take, and whatever the producer does in between it ends after
      finitely many of its own steps. */
  lemma CallsEnd(s: State, a: Action, dwfl: Symbols)
    requires Inv(s, dwfl) && s.consumer.Reading?
    ensures Enabled(s, ReadByte) || Enabled(s, Advance({})) || Enabled(s, Return)
    ensures Work(s) > 0
    ensures Enabled(s, a) ==>
      if a.ReadByte? || a.Advance? || a.Return? then Work(Next(s, a, dwfl)) < Work(s)
      else Work(Next(s, a, dwfl)) == Work(s)
  {
    CallHasStep(s, dwfl);
    WorkLeft(s, dwfl);
  }

  /** With a buffer of a multiple of 8 bytes a header never straddles its end: the first of the
      two header copies is the whole header, on every run. */
  lemma HeadersNeverStraddle(data: seq<Byte>, actions: seq<Action>, dwfl: Symbols)
    requires 0 < |data| && |data| % 8 == 0 && Reach(data, actions, dwfl).Some?
    ensures var s := Reach(data, actions, dwfl).value;
      s.tail % 8 == 0 && s.head % 8 == 0 && HEADER_SIZE <= |data| - s.tail % |data|
  {
    ReachableInv(data, actions, dwfl);
    var s := Reach(data, actions, dwfl).value;
    StreamAligned(s.published[..s.consumed]);
    StreamAligned(s.published);
    RoomForHeader(s.tail, |data|);
  }

  lemma RoomForHeader(tail: nat, n: nat)
    requires 0 < n && n % 8 == 0 && tail % 8 == 0
    ensures HEADER_SIZE <= n - tail % n
  {
    SlotAligned(tail, n);
    SlotIsMod(tail, n);
  }

  lemma {:induction false} SlotAligned(p: nat, n: nat)
    requires 0 < n && n % 8 == 0 && p % 8 == 0
    ensures Slot(p, n) % 8 == 0
  {
    if p >= n {
      SlotAligned(p - n, n);
    }
  }
}
