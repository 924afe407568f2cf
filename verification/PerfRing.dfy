/** The reader of the shared perf ring: get_callchains of src/perf.c. */
module PerfRing {
  import opened Text
  import opened StrBuffers
  import opened Callchains
  import opened Records

  const INITIAL_CAPACITY := 1024

  // ----- A circular buffer that holds a window of a linear stream

  /** The offset of a stream position in a buffer of `n` bytes, by whole laps. */
  function Slot(p: nat, n: nat): (at: nat)
    requires 0 < n
    ensures at < n
  {
    if p < n then p else Slot(p - n, n)
  }

  /** It is the remainder that the source computes. */
  lemma {:induction false} SlotIsMod(p: nat, n: nat)
    requires 0 < n
    ensures Slot(p, n) == p % n
  {
    if p >= n {
      SlotIsMod(p - n, n);
      OneLap(p, n);
    }
  }

  lemma OneLap(p: nat, n: nat)
    requires 0 < n <= p
    ensures p % n == (p - n) % n
  {
    var q, r := (p - n) / n, (p - n) % n;
    assert p == (q + 1) * n + r;
    ModUnique(p, n, q + 1, r);
  }

  lemma ModUnique(x: nat, n: nat, q: int, r: nat)
    requires 0 < n && r < n && x == q * n + r
    ensures x % n == r
  {
    var k := x / n - q;
    assert k * n == r - x % n;
    if k >= 1 {
      MulAtLeast(k, n);
    } else if k <= -1 {
      MulAtLeast(-k, n);
    }
  }

  lemma MulAtLeast(k: nat, n: nat)
    requires 1 <= k
    ensures k * n >= n
  {}

  lemma {:induction false} SlotShift(p: nat, k: nat, n: nat)
    requires 0 < n && k <= n
    ensures Slot(p + k, n) == if Slot(p, n) + k < n then Slot(p, n) + k else Slot(p, n) + k - n
  {
    if p >= n {
      SlotShift(p - n, k, n);
    }
  }

  /** Positions [lo, hi) of the stream are in the buffer, each at its offset modulo the size. */
  ghost predicate Holds(data: seq<Byte>, lo: nat, hi: nat, stream: seq<Byte>) {
    && 0 < |data|
    && hi <= |stream|
    && forall p {:trigger Slot(p, |data|)} :: lo <= p < hi ==> data[Slot(p, |data|)] == stream[p]
  }

  /** Where byte `k` of a copy from position `tail` is read: up to the end of the buffer, then
      from its start. */
  function Offset(tail: nat, k: nat, n: nat): nat
    requires 0 < n && k < n
  {
    var at := Slot(tail, n);
    if at + k < n then at + k else at + k - n
  }

  /** `n` bytes of `a` from `at` are those of `b` from `bt`. */
  ghost predicate Same(a: seq<Byte>, at: nat, b: seq<Byte>, bt: nat, n: nat) {
    && at + n <= |a|
    && bt + n <= |b|
    && forall i :: at <= i < at + n ==> a[i] == b[i - at + bt]
  }

  /** The two-part copy reads the linear stream, wherever the wrap falls. */
  lemma Reassembly(data: seq<Byte>, tail: nat, len: nat, stream: seq<Byte>)
    requires Holds(data, tail, tail + len, stream) && len <= |data|
    ensures forall k :: 0 <= k < len ==> data[Offset(tail, k, |data|)] == stream[tail + k]
  {
    forall k | 0 <= k < len
      ensures data[Offset(tail, k, |data|)] == stream[tail + k]
    {
      SlotShift(tail, k, |data|);
      assert data[Slot(tail + k, |data|)] == stream[tail + k];
    }
  }

  // ----- Writing past the head

  /** The buffer after byte `k` of what goes at the head. */
  function Written(data: seq<Byte>, head: nat, bytes: seq<Byte>, k: nat): (r: seq<Byte>)
    requires 0 < |data| && k < |bytes|
    ensures |r| == |data|
  {
    data[Slot(head + k, |data|) := bytes[k]]
  }

  /** Two positions less than one lap apart never share a slot. */
  lemma SlotsDiffer(p: nat, q: nat, n: nat)
    requires 0 < n && p < q < p + n
    ensures Slot(p, n) != Slot(q, n)
  {
    SlotShift(p, q - p, n);
  }

  /** Writing byte `k` of what goes after the head keeps the unread bytes and the first `k`. */
  lemma WriteSlot(data: seq<Byte>, tail: nat, head: nat, stream: seq<Byte>, bytes: seq<Byte>, k: nat)
    requires 0 < |data| && k < |bytes| && tail <= head && head + |bytes| <= tail + |data|
    requires Holds(data, tail, head, stream)
    requires forall j :: 0 <= j < k ==> data[Slot(head + j, |data|)] == bytes[j]
    ensures var data' := Written(data, head, bytes, k);
      && Holds(data', tail, head, stream)
      && forall j :: 0 <= j <= k ==> data'[Slot(head + j, |data|)] == bytes[j]
  {
    var data' := Written(data, head, bytes, k);
    forall p | tail <= p < head
      ensures data'[Slot(p, |data|)] == stream[p]
    {
      SlotsDiffer(p, head + k, |data|);
    }
    forall j | 0 <= j <= k
      ensures data'[Slot(head + j, |data|)] == bytes[j]
    {
      if j < k {
        SlotsDiffer(head + j, head + k, |data|);
      }
    }
  }

  /** What was written after the head becomes part of the stream. */
  lemma PublishHolds(data: seq<Byte>, tail: nat, head: nat, stream: seq<Byte>, bytes: seq<Byte>)
    requires Holds(data, tail, head, stream) && head == |stream|
    requires forall j :: 0 <= j < |bytes| ==> data[Slot(head + j, |data|)] == bytes[j]
    ensures Holds(data, tail, head + |bytes|, stream + bytes)
  {
    forall p | tail <= p < head + |bytes|
      ensures data[Slot(p, |data|)] == (stream + bytes)[p]
    {
      if p >= head {
        var j := p - head;
        assert data[Slot(head + j, |data|)] == bytes[j];
      }
    }
  }

  method Memcpy(dst: array<Byte>, to: nat, src: array<Byte>, from: nat, n: nat)
    requires dst != src && to + n <= dst.Length && from + n <= src.Length
    modifies dst
    ensures forall i :: 0 <= i < dst.Length ==>
      dst[i] == if to <= i < to + n then src[from + (i - to)] else old(dst[i])
  {
    forall i | 0 <= i < n {
      dst[to + i] := src[from + i];
    }
  }

  // ----- One sample

  /** append_symbols_from_sample: the sample is at `at` in `sample`; `ips` is its call chain.
      Nothing past the 16 bytes of header and count is read when the chain is too long. */
  method AppendSymbolsFromSample(callchains: StrBuffer, sample: array<Byte>, at: nat, dwfl: Symbols,
                                 ghost ips: seq<U64>)
    requires callchains.Valid()
    requires SampleAt(sample[..], at, ips)
    modifies callchains, callchains.buffer
    ensures callchains.Valid() && (callchains.buffer == old(callchains.buffer) || fresh(callchains.buffer))
    ensures Texts(callchains.log) == Texts(old(callchains.log)) + SamplePieces(ips, dwfl)
  {
    var bytes := sample[..];
    var nr := Word(bytes, at + 8);
    if nr > MAX_FRAMES {
      return;
    }
    AppendFrames(callchains, bytes, at, dwfl, nr, ips);
    AppendPiece(callchains, "|");
    Associative(Texts(old(callchains.log)), FramesPieces(ips, nr, dwfl), ["|"]);
  }

  /** Symbolization: every address of the chain. */
  method AppendFrames(callchains: StrBuffer, sample: seq<Byte>, at: nat, dwfl: Symbols, nr: nat,
                      ghost ips: seq<U64>)
    requires callchains.Valid()
    requires SampleAt(sample, at, ips) && nr == |ips| <= MAX_FRAMES
    modifies callchains, callchains.buffer
    ensures callchains.Valid() && (callchains.buffer == old(callchains.buffer) || fresh(callchains.buffer))
    ensures Texts(callchains.log) == Texts(old(callchains.log)) + FramesPieces(ips, nr, dwfl)
  {
    ghost var start := Texts(callchains.log);
    var i := 0;
    NoFrames(start, callchains, ips, dwfl);
    while i < nr
      invariant i <= nr && FramesAppended(start, callchains, ips, i, dwfl)
      invariant callchains.buffer == old(callchains.buffer) || fresh(callchains.buffer)
    {
      AppendNext(callchains, sample, at, dwfl, i, ips, start);
      i := i + 1;
    }
  }

  method AppendNext(callchains: StrBuffer, sample: seq<Byte>, at: nat, dwfl: Symbols, i: nat,
                    ghost ips: seq<U64>, ghost start: seq<string>)
    requires SampleAt(sample, at, ips) && i < |ips| <= MAX_FRAMES
    requires FramesAppended(start, callchains, ips, i, dwfl)
    modifies callchains, callchains.buffer
    ensures FramesAppended(start, callchains, ips, i + 1, dwfl)
    ensures callchains.buffer == old(callchains.buffer) || fresh(callchains.buffer)
  {
    var ip := ReadIp(sample, at, i, ips);
    AppendFrame(callchains, ip, dwfl);
    NextFrame(start, ips, i, dwfl);
  }

  method ReadIp(sample: seq<Byte>, at: nat, i: nat, ghost ips: seq<U64>) returns (ip: U64)
    requires SampleAt(sample, at, ips) && i < |ips| <= MAX_FRAMES
    ensures ip == ips[i]
  {
    ip := IpAt(sample, at, i);
  }

  ghost predicate FramesAppended(start: seq<string>, callchains: StrBuffer, ips: seq<U64>, i: nat, dwfl: Symbols)
    requires i <= |ips|
    reads callchains, callchains.buffer
  {
    callchains.Valid() && Texts(callchains.log) == start + FramesPieces(ips, i, dwfl)
  }

  lemma NoFrames(start: seq<string>, callchains: StrBuffer, ips: seq<U64>, dwfl: Symbols)
    requires callchains.Valid() && Texts(callchains.log) == start
    ensures FramesAppended(start, callchains, ips, 0, dwfl)
  {}

  lemma NextFrame(start: seq<string>, ips: seq<U64>, i: nat, dwfl: Symbols)
    requires i < |ips|
    ensures start + FramesPieces(ips, i + 1, dwfl) == start + FramesPieces(ips, i, dwfl) + FramePieces(ips[i], dwfl)
  {
    Associative(start, FramesPieces(ips, i, dwfl), FramePieces(ips[i], dwfl));
  }

  lemma Associative<T>(a: seq<T>, b: seq<T>, c: seq<T>)
    ensures a + (b + c) == (a + b) + c
  {}

  /** Address `i` of the sample structure at `at`. */
  function IpAt(bytes: seq<Byte>, at: nat, i: nat): U64
    requires at + 16 + 8 * i + 8 <= |bytes|
  {
    Word(bytes, at + 16 + 8 * i)
  }

  /** The sample structure at `at`: the count of addresses and, unless there are too many, the
      addresses themselves. */
  ghost predicate SampleAt(bytes: seq<Byte>, at: nat, ips: seq<U64>) {
    && at + 16 <= |bytes|
    && Word(bytes, at + 8) == |ips|
    && (|ips| <= MAX_FRAMES ==>
         && at + 16 + 8 * |ips| <= |bytes|
         && forall i {:trigger IpAt(bytes, at, i)} :: 0 <= i < |ips| ==> IpAt(bytes, at, i) == ips[i])
  }

  /** One address of the chain: its symbol, or the address itself. */
  method AppendFrame(callchains: StrBuffer, ip: U64, dwfl: Symbols)
    requires callchains.Valid()
    modifies callchains, callchains.buffer
    ensures callchains.Valid() && (callchains.buffer == old(callchains.buffer) || fresh(callchains.buffer))
    ensures Texts(callchains.log) == Texts(old(callchains.log)) + FramePieces(ip, dwfl)
  {
    var symbol := Symbol(ip, dwfl);
    if symbol.Some? {
      AppendPiece(callchains, symbol.value);
      AppendPiece(callchains, ";");
    } else {
      AppendPiece(callchains, Snprintf(Address(ip) + ";", IP_BUFFER_SIZE));
    }
  }

  /** One strapp, whose realloc may be granted or refused. */
  method AppendPiece(callchains: StrBuffer, text: CString)
    requires callchains.Valid()
    modifies callchains, callchains.buffer
    ensures callchains.Valid() && (callchains.buffer == old(callchains.buffer) || fresh(callchains.buffer))
    ensures Texts(callchains.log) == Texts(old(callchains.log)) + [text]
  {
    var granted: bool := *;
    callchains.Append(text, granted);
  }

  // ----- The ring

  /** Record `c` does not straddle the end of a buffer of `n` bytes. */
  ghost predicate InOnePiece(rs: seq<Record>, c: nat, n: nat) {
    && 0 < n && c < |rs|
    && Slot(|Stream(rs[..c])|, n) + Size(rs[c]) <= n
  }

  class Ring {
    const data: array<Byte>
    var dataHead: nat
    var dataTail: nat
    ghost var stream: seq<Byte>
    ghost var records: seq<Record>
    ghost var consumed: nat

    /** All the bytes ever published, of which the last ones are in the buffer: the producer
        never writes past the free space. */
    ghost predicate Shape()
      reads this, data
    {
      && dataTail <= dataHead == |stream|
      && dataHead - dataTail <= data.Length
      && Holds(data[..], dataTail, dataHead, stream)
    }

    /** The stream is made of records, and the tail is between two of them. */
    ghost predicate Valid()
      reads this, data
    {
      && Shape()
      && consumed <= |records|
      && stream == Stream(records)
      && dataTail == |Stream(records[..consumed])|
    }

    constructor (size: nat)
      requires 0 < size
      ensures Valid() && data.Length == size && records == [] && consumed == 0
    {
      data := new Byte[size](_ => 0);
      dataHead, dataTail, stream, records, consumed := 0, 0, [], [], 0;
    }

    /** The kernel's side: a record is copied past the head, which then moves. It never writes
        more than the free space. */
    method Produce(r: Record)
      requires Valid() && dataHead + Size(r) <= dataTail + data.Length
      modifies this`dataHead, this`stream, this`records, data
      ensures Valid() && records == old(records) + [r]
    {
      CopyIn(Encode(r));
      PublishHolds(data[..], dataTail, dataHead, stream, Encode(r));
      MoveHead(r);
    }

    method MoveHead(r: Record)
      requires Valid() && Holds(data[..], dataTail, dataHead + Size(r), stream + Encode(r))
      requires dataHead + Size(r) <= dataTail + data.Length
      modifies this`dataHead, this`stream, this`records
      ensures Valid() && records == old(records) + [r]
    {
      StreamMore(records, r, consumed);
      dataHead, stream, records := dataHead + Size(r), stream + Encode(r), records + [r];
    }

    method CopyIn(bytes: seq<Byte>)
      requires Shape() && dataHead + |bytes| <= dataTail + data.Length
      modifies data
      ensures Shape()
      ensures forall j :: 0 <= j < |bytes| ==> data[..][Slot(dataHead + j, data.Length)] == bytes[j]
    {
      var k := 0;
      while k < |bytes|
        invariant k <= |bytes| && Shape()
        invariant forall j :: 0 <= j < k ==> data[..][Slot(dataHead + j, data.Length)] == bytes[j]
      {
        WriteSlot(data[..], dataTail, dataHead, stream, bytes, k);
        ghost var written := Written(data[..], dataHead, bytes, k);
        data[Slot(dataHead + k, data.Length)] := bytes[k];
        assert data[..] == written;
        k := k + 1;
      }
    }

    lemma Pending()
      requires Valid()
      ensures dataTail < dataHead <==> consumed < |records|
    {
      StreamGrows(records, consumed);
    }

    /** The offset of a position in the buffer. */
    method RelativeLoc(tail: nat) returns (at: nat)
      requires 0 < data.Length
      ensures at == Slot(tail, data.Length)
    {
      at := tail % data.Length;
      SlotIsMod(tail, data.Length);
    }

    /** Both copies of the header: the part before the wrap and the part after it. */
    method ReadHeader() returns (header: array<Byte>)
      requires Shape() && dataTail + HEADER_SIZE <= dataHead
      ensures fresh(header) && header.Length == HEADER_SIZE
      ensures Same(header[..], 0, stream, dataTail, HEADER_SIZE)
    {
      Reassembly(data[..], dataTail, HEADER_SIZE, stream);
      var relativeLoc := RelativeLoc(dataTail);
      var bytesRemaining := data.Length - relativeLoc;
      var headerBytesRemaining := if bytesRemaining > HEADER_SIZE then HEADER_SIZE else bytesRemaining;
      header := new Byte[HEADER_SIZE];
      Memcpy(header, 0, data, relativeLoc, headerBytesRemaining);
      Memcpy(header, headerBytesRemaining, data, 0, HEADER_SIZE - headerBytesRemaining);
      forall k | 0 <= k < HEADER_SIZE
        ensures header[..][k] == stream[k - 0 + dataTail]
      {
        assert header[k] == data[..][Offset(dataTail, k, data.Length)];
      }
    }

    /** Where the sample can be read in one piece: in place, or in a copy when it straddles
        the end of the buffer. */
    method FindSample(size: nat) returns (sample: array<Byte>, at: nat)
      requires Shape() && dataTail + size <= dataHead && 0 < data.Length
      ensures Same(sample[..], at, stream, dataTail, size)
      ensures sample == data || fresh(sample)
    {
      Reassembly(data[..], dataTail, size, stream);
      var relativeLoc := RelativeLoc(dataTail);
      var bytesRemaining := data.Length - relativeLoc;
      sample, at := data, relativeLoc;
      if bytesRemaining < size {
        sample, at := new Byte[size], 0;
        Memcpy(sample, 0, data, relativeLoc, bytesRemaining);
        Memcpy(sample, bytesRemaining, data, 0, size - bytesRemaining);
      }
      forall i | at <= i < at + size
        ensures sample[..][i] == stream[i - at + dataTail]
      {
        assert sample[i] == data[..][Offset(dataTail, i - at, data.Length)];
      }
    }

    /** get_callchains. NULL leaves the ring as it was; otherwise every record published is
        consumed and the result is what the buffer kept of their pieces, in order. */
    method GetCallchains(dwfl: Symbols, available: bool) returns (text: array?<char>, ghost pieces: seq<Piece>)
      requires Valid()
      modifies this`dataTail, this`consumed
      ensures Valid()
      ensures text == null <==> old(consumed) == |records| || !available
      ensures text == null ==> dataTail == old(dataTail) && consumed == old(consumed)
      ensures text != null ==>
        && dataTail == dataHead && consumed == |records|
        && Texts(pieces) == SamplesPieces(Chains(records), old(consumed), consumed, dwfl)
        && UntilNul(text[..]) == Run(1024, pieces).text
        && (AllGranted(pieces) ==> UntilNul(text[..]) == Report(Chains(records)[old(consumed)..], dwfl))
        && (AllGranted(pieces) && CleanNames(Reported(Chains(records)[old(consumed)..]), dwfl) ==>
              ReadsAs(UntilNul(text[..]), Reported(Chains(records)[old(consumed)..]), dwfl))
    {
      var head := dataHead;
      Pending();
      if head == dataTail {
        return null, [];
      }
      var callchains := StrBuffer.New(INITIAL_CAPACITY, available);
      if callchains == null {
        return null, [];
      }
      Drain(callchains, dwfl, head);
      text := callchains.FreeWrap();
      pieces := callchains.log;
      if AllGranted(pieces) {
        GrantedReport(Chains(records), old(consumed), pieces, dwfl);
        if CleanNames(Reported(Chains(records)[old(consumed)..]), dwfl) {
          ReportShowsFrames(Chains(records)[old(consumed)..], dwfl);
        }
      }
    }

    /** The loop of get_callchains, up to the head read at its start. */
    method Drain(callchains: StrBuffer, dwfl: Symbols, head: nat)
      requires Valid() && head == dataHead
      requires callchains.Valid() && callchains.log == []
      modifies this`dataTail, this`consumed, callchains, callchains.buffer
      ensures Valid() && dataTail == dataHead && consumed == |records|
      ensures callchains.Valid() && Texts(callchains.log) == SamplesPieces(Chains(records), old(consumed), consumed, dwfl)
    {
      while dataTail < head
        invariant Valid() && old(consumed) <= consumed
        invariant callchains.Valid() && (callchains.buffer == old(callchains.buffer) || fresh(callchains.buffer))
        invariant Texts(callchains.log) == SamplesPieces(Chains(records), old(consumed), consumed, dwfl)
        decreases head - dataTail
      {
        Pending();
        ConsumeRecord(callchains, dwfl, old(consumed));
      }
      Pending();
    }

    /** The plain reader of testing/sample_callchain.c: every record is read in place and the
        tail is written back once, after the loop. It needs records that do not straddle the
        end of the buffer. */
    method PlainRead() returns (visited: seq<seq<U64>>)
      requires Valid()
      requires forall c :: consumed <= c < |records| ==> InOnePiece(records, c, data.Length)
      modifies this`dataTail, this`consumed
      ensures Valid() && dataTail == dataHead && consumed == |records|
      ensures visited == Chains(records)[old(consumed)..]
    {
      var tail;
      visited, tail := PlainLoop(dataHead);
      Release(tail);
    }

    method PlainLoop(head: nat) returns (visited: seq<seq<U64>>, tail: nat)
      requires Valid() && head == dataHead
      requires forall c :: consumed <= c < |records| ==> InOnePiece(records, c, data.Length)
      ensures tail == head && visited == Chains(records)[consumed..]
    {
      visited, tail := [], dataTail;
      ghost var c := consumed;
      PlainStart();
      while tail < head
        invariant Visited(visited, tail, c)
        decreases |records| - c
      {
        visited, tail := PlainStep(visited, tail, c);
        c := c + 1;
      }
      PlainEnd(visited, tail, c);
    }

    /** The records before record `c` have been visited, and `tail` is right before it. */
    ghost predicate Visited(visited: seq<seq<U64>>, tail: nat, c: nat)
      reads this
    {
      consumed <= c <= |records| && Before(tail, c) && visited == Chains(records)[consumed..c]
    }

    lemma PlainEnd(visited: seq<seq<U64>>, tail: nat, c: nat)
      requires Valid() && Visited(visited, tail, c) && tail >= dataHead
      ensures tail == dataHead && visited == Chains(records)[consumed..]
    {
      UpToEnd(Chains(records), consumed);
    }

    method PlainStep(visited: seq<seq<U64>>, tail: nat, ghost c: nat) returns (more: seq<seq<U64>>, next: nat)
      requires Valid() && Visited(visited, tail, c) && tail < dataHead
      requires forall i :: consumed <= i < |records| ==> InOnePiece(records, i, data.Length)
      ensures c < |records| && Visited(more, next, c + 1)
    {
      var ips, size := PlainVisit(tail, c);
      PlainNext(tail, c, visited);
      return visited + [ips], tail + size;
    }

    lemma PlainStart()
      requires Valid()
      ensures Visited([], dataTail, consumed)
    {
      StreamGrows(records, consumed);
    }

    lemma PlainNext(tail: nat, c: nat, visited: seq<seq<U64>>)
      requires Valid() && consumed <= c < |records| && Before(tail, c)
      requires visited == Chains(records)[consumed..c]
      ensures Before(tail + Size(records[c]), c + 1)
      ensures visited + [records[c].ips] == Chains(records)[consumed..c + 1]
    {
      NextPosition(records, c);
      ChainsSlice(records, consumed, c);
    }

    /** Position `tail` is right before record `c`, or at the head. */
    ghost predicate Before(tail: nat, c: nat)
      reads this
    {
      && c <= |records|
      && tail == |Stream(records[..c])| <= dataHead
      && (tail < dataHead <==> c < |records|)
    }

    /** Giving everything back at once. */
    method Release(tail: nat)
      requires Valid() && tail == dataHead
      modifies this`dataTail, this`consumed
      ensures Valid() && dataTail == tail && consumed == |records|
    {
      assert records[..|records|] == records;
      dataTail, consumed := tail, |records|;
    }

    /** One record, read in place. */
    method PlainVisit(tail: nat, ghost c: nat) returns (ips: seq<U64>, size: nat)
      requires Valid() && consumed <= c < |records|
      requires Before(tail, c) && InOnePiece(records, c, data.Length)
      ensures ips == records[c].ips && size == Size(records[c])
    {
      FindInPlace(tail, c);
      var at := RelativeLoc(tail);
      RecordFields(data[..], at, stream, tail, records[c]);
      ips := ReadChain(data[..], at);
      size := FromLittle(data[..][at + 6..at + 8]);
    }

    /** The buffer holds a record that does not straddle its end at the record's offset. */
    lemma FindInPlace(tail: nat, c: nat)
      requires Valid() && consumed <= c < |records|
      requires Before(tail, c) && InOnePiece(records, c, data.Length)
      ensures Same(data[..], Slot(tail, data.Length), stream, tail, Size(records[c]))
      ensures Same(stream, tail, Encode(records[c]), 0, Size(records[c]))
    {
      RecordAt(records, c);
      NextPosition(records, c);
      UnreadWindow(c);
      InPlace(data[..], tail, Size(records[c]), stream);
    }

    lemma UnreadWindow(c: nat)
      requires Valid() && consumed <= c <= |records|
      ensures dataTail <= |Stream(records[..c])|
    {
      assert records[..c][..consumed] == records[..consumed];
      StreamGrows(records[..c], consumed);
    }

    /** The body of the loop: one record is rendered and its bytes are given back. */
    method ConsumeRecord(callchains: StrBuffer, dwfl: Symbols, ghost first: nat)
      requires Valid() && first <= consumed < |records|
      requires callchains.Valid() && Texts(callchains.log) == SamplesPieces(Chains(records), first, consumed, dwfl)
      modifies this`dataTail, this`consumed, callchains, callchains.buffer
      ensures Valid() && consumed == old(consumed) + 1 && dataTail > old(dataTail)
      ensures callchains.Valid() && (callchains.buffer == old(callchains.buffer) || fresh(callchains.buffer))
      ensures Texts(callchains.log) == SamplesPieces(Chains(records), first, consumed, dwfl)
    {
      PiecesNext(records, first, consumed, dwfl);
      var size := RenderRecord(callchains, dwfl);
      Advance(size);
    }

    /** One record is rebuilt from the ring and rendered; the ring does not change. */
    method RenderRecord(callchains: StrBuffer, dwfl: Symbols) returns (size: nat)
      requires Valid() && consumed < |records|
      requires callchains.Valid()
      modifies callchains, callchains.buffer
      ensures Valid() && size == Size(records[consumed])
      ensures callchains.Valid() && (callchains.buffer == old(callchains.buffer) || fresh(callchains.buffer))
      ensures Texts(callchains.log) == Texts(old(callchains.log)) + SamplePieces(records[consumed].ips, dwfl)
    {
      ghost var r := records[consumed];
      RecordAt(records, consumed);
      var header := ReadHeader();
      HeaderFields(header[..], stream, dataTail, r);
      size := SizeField(header[..]);
      var sample, at := FindSample(size);
      SampleFields(sample[..], at, stream, dataTail, r);
      AppendSymbolsFromSample(callchains, sample, at, dwfl, r.ips);
    }

    /** Giving back the bytes of the record just read. */
    method Advance(size: nat)
      requires Valid() && consumed < |records| && size == Size(records[consumed])
      modifies this`dataTail, this`consumed
      ensures Valid() && dataTail == old(dataTail) + size && consumed == old(consumed) + 1
    {
      StreamAt(records, consumed);
      dataTail := dataTail + size;
      consumed := consumed + 1;
    }
  }

  lemma StreamSnoc(rs: seq<Record>, r: Record)
    ensures Stream(rs + [r]) == Stream(rs) + Encode(r)
  {
    var all := rs + [r];
    assert all[..|all| - 1] == rs && all[|all| - 1] == r;
  }

  lemma StreamMore(rs: seq<Record>, r: Record, c: nat)
    requires c <= |rs|
    ensures Stream(rs + [r]) == Stream(rs) + Encode(r)
    ensures Stream((rs + [r])[..c]) == Stream(rs[..c])
  {
    StreamSnoc(rs, r);
    PrefixSnoc(rs, r, c);
  }

  lemma PrefixSnoc<T>(xs: seq<T>, x: T, n: nat)
    requires n <= |xs|
    ensures (xs + [x])[..n] == xs[..n]
  {}

  ghost predicate AllGranted(pieces: seq<Piece>) {
    forall i :: 0 <= i < |pieces| ==> pieces[i].granted
  }

  lemma GrantedReport(samples: seq<seq<U64>>, from: nat, pieces: seq<Piece>, dwfl: Symbols)
    requires from <= |samples| && AllGranted(pieces)
    requires Texts(pieces) == SamplesPieces(samples, from, |samples|, dwfl)
    ensures Run(INITIAL_CAPACITY, pieces).text == Report(samples[from..], dwfl)
  {
    var empty := Buf(INITIAL_CAPACITY, "", 0);
    TextLaw(empty, pieces);
    GrantedLaw(empty, pieces);
    SamplesText(samples, from, |samples|, dwfl);
    assert samples[from..|samples|] == samples[from..];
  }

  lemma PiecesNext(rs: seq<Record>, first: nat, c: nat, dwfl: Symbols)
    requires first <= c < |rs|
    ensures SamplesPieces(Chains(rs), first, c + 1, dwfl) ==
      SamplesPieces(Chains(rs), first, c, dwfl) + SamplePieces(rs[c].ips, dwfl)
  {}

  lemma UpToEnd<T>(xs: seq<T>, from: nat)
    requires from <= |xs|
    ensures xs[from..|xs|] == xs[from..]
  {}

  lemma ChainsSlice(rs: seq<Record>, from: nat, c: nat)
    requires from <= c < |rs|
    ensures Chains(rs)[from..c + 1] == Chains(rs)[from..c] + [rs[c].ips]
  {}

  lemma SameSlice(a: seq<Byte>, at: nat, b: seq<Byte>, bt: nat, n: nat)
    requires Same(a, at, b, bt, n)
    ensures a[at..at + n] == b[bt..bt + n]
  {
    var wa, wb := a[at..at + n], b[bt..bt + n];
    forall k | 0 <= k < n
      ensures wa[k] == wb[k]
    {
      assert a[at + k] == b[at + k - at + bt];
    }
  }

  lemma SamePart(a: seq<Byte>, at: nat, b: seq<Byte>, bt: nat, n: nat, k: nat, m: nat)
    requires Same(a, at, b, bt, n) && k + m <= n
    ensures Same(a, at + k, b, bt + k, m)
  {}

  lemma SameTrans(a: seq<Byte>, at: nat, b: seq<Byte>, bt: nat, c: seq<Byte>, ct: nat, n: nat)
    requires Same(a, at, b, bt, n) && Same(b, bt, c, ct, n)
    ensures Same(a, at, c, ct, n)
  {
    forall i | at <= i < at + n
      ensures a[i] == c[i - at + ct]
    {
      assert b[i - at + bt] == c[i - at + bt - bt + ct];
    }
  }

  lemma SameWord(a: seq<Byte>, at: nat, b: seq<Byte>, bt: nat, n: nat, k: nat)
    requires Same(a, at, b, bt, n) && k + 8 <= n
    ensures Word(a, at + k) == Word(b, bt + k)
  {
    SamePart(a, at, b, bt, n, k, 8);
    SameSlice(a, at + k, b, bt + k, 8);
  }

  /** The stream holds record `c` right after the records before it. */
  lemma RecordAt(rs: seq<Record>, c: nat)
    requires c < |rs|
    ensures var tail := |Stream(rs[..c])|;
      && tail + Size(rs[c]) == |Stream(rs[..c + 1])|
      && Same(Stream(rs), tail, Encode(rs[c]), 0, Size(rs[c]))
  {
    StreamAt(rs, c);
    SliceSame(Stream(rs), |Stream(rs[..c])|, Encode(rs[c]));
  }

  lemma SliceSame(a: seq<Byte>, at: nat, b: seq<Byte>)
    requires at + |b| <= |a| && a[at..at + |b|] == b
    ensures Same(a, at, b, 0, |b|)
  {
    forall i | at <= i < at + |b|
      ensures a[i] == b[i - at]
    {
      assert a[at..at + |b|][i - at] == a[i];
    }
  }

  lemma NextPosition(rs: seq<Record>, c: nat)
    requires c < |rs|
    ensures |Stream(rs[..c + 1])| == |Stream(rs[..c])| + Size(rs[c]) <= |Stream(rs)|
    ensures |Stream(rs[..c + 1])| < |Stream(rs)| <==> c + 1 < |rs|
  {
    RecordAt(rs, c);
    StreamGrows(rs, c + 1);
  }

  predicate ReadableAt(bytes: seq<Byte>, at: nat) {
    at + 16 <= |bytes| && at + 16 + 8 * Word(bytes, at + 8) <= |bytes|
  }

  function ReadChain(bytes: seq<Byte>, at: nat): seq<U64>
    requires ReadableAt(bytes, at)
  {
    seq(Word(bytes, at + 8), i requires 0 <= i < Word(bytes, at + 8) => Word(bytes, at + 16 + 8 * i))
  }

  lemma SizeAt(bytes: seq<Byte>, at: nat, r: Record)
    requires Same(bytes, at, Encode(r), 0, HEADER_SIZE)
    ensures FromLittle(bytes[at + 6..at + 8]) == Size(r)
  {
    Fields(r);
    SamePart(bytes, at, Encode(r), 0, HEADER_SIZE, 6, 2);
    SameSlice(bytes, at + 6, Encode(r), 6, 2);
  }

  lemma HeaderFields(header: seq<Byte>, stream: seq<Byte>, tail: nat, r: Record)
    requires Same(header, 0, stream, tail, HEADER_SIZE)
    requires Same(stream, tail, Encode(r), 0, Size(r))
    ensures SizeField(header) == Size(r)
  {
    SamePart(stream, tail, Encode(r), 0, Size(r), 0, HEADER_SIZE);
    SameTrans(header, 0, stream, tail, Encode(r), 0, HEADER_SIZE);
    SizeAt(header, 0, r);
  }

  lemma RecordFields(bytes: seq<Byte>, at: nat, stream: seq<Byte>, tail: nat, r: Record)
    requires Same(bytes, at, stream, tail, Size(r))
    requires Same(stream, tail, Encode(r), 0, Size(r))
    ensures FromLittle(bytes[at + 6..at + 8]) == Size(r)
    ensures ReadableAt(bytes, at) && ReadChain(bytes, at) == r.ips
  {
    SameTrans(bytes, at, stream, tail, Encode(r), 0, Size(r));
    SamePart(bytes, at, Encode(r), 0, Size(r), 0, HEADER_SIZE);
    SizeAt(bytes, at, r);
    Fields(r);
    ChainFields(bytes, at, Encode(r), r.ips);
  }

  lemma ChainFields(bytes: seq<Byte>, at: nat, whole: seq<Byte>, ips: seq<U64>)
    requires |whole| == 16 + 8 * |ips| && Same(bytes, at, whole, 0, |whole|)
    requires Word(whole, 8) == |ips| && forall i :: 0 <= i < |ips| ==> Word(whole, 16 + 8 * i) == ips[i]
    ensures ReadableAt(bytes, at) && ReadChain(bytes, at) == ips
  {
    SameWord(bytes, at, whole, 0, |whole|, 8);
    forall i | 0 <= i < |ips|
      ensures Word(bytes, at + 16 + 8 * i) == ips[i]
    {
      SameWord(bytes, at, whole, 0, |whole|, 16 + 8 * i);
    }
  }

  lemma InPlace(data: seq<Byte>, tail: nat, size: nat, stream: seq<Byte>)
    requires Holds(data, tail, tail + size, stream) && Slot(tail, |data|) + size <= |data|
    ensures Same(data, Slot(tail, |data|), stream, tail, size)
  {
    Reassembly(data, tail, size, stream);
    var at := Slot(tail, |data|);
    forall i | at <= i < at + size
      ensures data[i] == stream[i - at + tail]
    {
      assert data[Offset(tail, i - at, |data|)] == stream[tail + (i - at)];
    }
  }

  lemma SampleFields(bytes: seq<Byte>, at: nat, stream: seq<Byte>, tail: nat, r: Record)
    requires Same(bytes, at, stream, tail, Size(r))
    requires Same(stream, tail, Encode(r), 0, Size(r))
    ensures SampleAt(bytes, at, r.ips)
  {
    RecordFields(bytes, at, stream, tail, r);
    ChainIsSample(bytes, at);
  }

  lemma ChainIsSample(bytes: seq<Byte>, at: nat)
    requires ReadableAt(bytes, at)
    ensures SampleAt(bytes, at, ReadChain(bytes, at))
  {
    var ips := ReadChain(bytes, at);
    forall i | 0 <= i < |ips|
      ensures IpAt(bytes, at, i) == ips[i]
    {}
  }
}
