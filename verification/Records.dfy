/** Sample records as the kernel lays them out in the ring: perf_event_open(2), the mmap
    layout of PERF_RECORD_SAMPLE with a call chain. Numbers are little endian. */
module Records {
  import opened Text

  type Byte = x: int | 0 <= x < 256

  const HEADER_SIZE := 8

  /** A sample record: header type and misc bits (which the reader never looks at) and the
      addresses of the call chain. Its size must fit the 16-bit size field. */
  datatype RawRecord = Record(kind: nat, misc: nat, ips: seq<U64>)

  type Record = r: RawRecord | IsRecord(r) witness Record(9, 0, [])

  predicate IsRecord(r: RawRecord) {
    r.kind < 0x1_0000_0000 && r.misc < 0x1_0000 && 16 + 8 * |r.ips| < 0x1_0000
  }

  function Size(r: RawRecord): nat { 16 + 8 * |r.ips| }

  // ----- Little endian numbers

  function Pow256(k: nat): (p: nat)
    ensures p > 0
  {
    if k == 0 then 1 else 256 * Pow256(k - 1)
  }

  function Little(n: nat, k: nat): (bytes: seq<Byte>)
    ensures |bytes| == k
  {
    if k == 0 then [] else [n % 256] + Little(n / 256, k - 1)
  }

  function FromLittle(bytes: seq<Byte>): (n: nat)
    ensures n < Pow256(|bytes|)
  {
    if bytes == [] then 0 else bytes[0] + 256 * FromLittle(bytes[1..])
  }

  lemma {:induction false} LittleRoundTrip(n: nat, k: nat)
    requires n < Pow256(k)
    ensures FromLittle(Little(n, k)) == n
  {
    if k > 0 {
      LittleRoundTrip(n / 256, k - 1);
    }
  }

  lemma Words()
    ensures Pow256(2) == 0x1_0000 && Pow256(4) == 0x1_0000_0000 && Pow256(8) == 0x1_0000_0000_0000_0000
  {
    assert Pow256(4) == 0x1_0000_0000;
    assert Pow256(6) == 0x1_0000_0000_0000;
  }

  // ----- One record

  function EncodeIps(ips: seq<U64>): (bytes: seq<Byte>)
    ensures |bytes| == 8 * |ips|
  {
    if ips == [] then [] else EncodeIps(ips[..|ips| - 1]) + Little(ips[|ips| - 1], 8)
  }

  /** The header and the count of addresses. */
  function EncodeStart(r: Record): (bytes: seq<Byte>)
    ensures |bytes| == 16
  {
    Little(r.kind, 4) + Little(r.misc, 2) + Little(Size(r), 2) + Little(|r.ips|, 8)
  }

  function Encode(r: Record): (bytes: seq<Byte>)
    ensures |bytes| == Size(r)
  {
    EncodeStart(r) + EncodeIps(r.ips)
  }

  /** The size field of a header. */
  function SizeField(bytes: seq<Byte>): nat
    requires HEADER_SIZE <= |bytes|
  {
    FromLittle(bytes[6..8])
  }

  function Word(bytes: seq<Byte>, at: nat): (w: U64)
    requires at + 8 <= |bytes|
  {
    Words();
    FromLittle(bytes[at..at + 8])
  }

  lemma {:induction false} EncodeIpsAt(ips: seq<U64>, i: nat)
    requires i < |ips|
    ensures EncodeIps(ips)[8 * i..8 * i + 8] == Little(ips[i], 8)
  {
    if i < |ips| - 1 {
      EncodeIpsAt(ips[..|ips| - 1], i);
      FirstPart(EncodeIps(ips[..|ips| - 1]), Little(ips[|ips| - 1], 8), 8 * i, 8);
    } else {
      SecondPart(EncodeIps(ips[..|ips| - 1]), Little(ips[|ips| - 1], 8), 0, 8);
    }
  }

  lemma FirstPart(a: seq<Byte>, b: seq<Byte>, i: nat, n: nat)
    requires i + n <= |a|
    ensures (a + b)[i..i + n] == a[i..i + n]
  {}

  lemma StartFields(r: Record)
    ensures FromLittle(EncodeStart(r)[0..4]) == r.kind && FromLittle(EncodeStart(r)[4..6]) == r.misc
    ensures FromLittle(EncodeStart(r)[6..8]) == Size(r)
    ensures FromLittle(EncodeStart(r)[8..16]) == |r.ips|
  {
    Words();
    assert EncodeStart(r)[0..4] == Little(r.kind, 4) && EncodeStart(r)[4..6] == Little(r.misc, 2);
    LittleRoundTrip(r.kind, 4);
    LittleRoundTrip(r.misc, 2);
    assert EncodeStart(r)[6..8] == Little(Size(r), 2);
    LittleRoundTrip(Size(r), 2);
    assert EncodeStart(r)[8..16] == Little(|r.ips|, 8);
    LittleRoundTrip(|r.ips|, 8);
  }

  lemma IpField(r: Record, i: nat)
    requires i < |r.ips|
    ensures Word(Encode(r), 16 + 8 * i) == r.ips[i]
  {
    EncodeIpsAt(r.ips, i);
    SecondPart(EncodeStart(r), EncodeIps(r.ips), 8 * i, 8);
    WordIs(Encode(r), 16 + 8 * i, r.ips[i]);
  }

  lemma SecondPart(a: seq<Byte>, b: seq<Byte>, i: nat, n: nat)
    requires i + n <= |b|
    ensures (a + b)[|a| + i..|a| + i + n] == b[i..i + n]
  {}

  lemma WordIs(bytes: seq<Byte>, at: nat, w: U64)
    requires at + 8 <= |bytes| && bytes[at..at + 8] == Little(w, 8)
    ensures Word(bytes, at) == w
  {
    Words();
    LittleRoundTrip(w, 8);
  }

  /** The fields of an encoded record read back. */
  lemma Fields(r: Record)
    ensures FromLittle(Encode(r)[0..4]) == r.kind && FromLittle(Encode(r)[4..6]) == r.misc
    ensures SizeField(Encode(r)) == Size(r)
    ensures Word(Encode(r), 8) == |r.ips|
    ensures forall i :: 0 <= i < |r.ips| ==> Word(Encode(r), 16 + 8 * i) == r.ips[i]
  {
    StartFields(r);
    assert Encode(r)[0..4] == EncodeStart(r)[0..4] && Encode(r)[4..6] == EncodeStart(r)[4..6];
    assert Encode(r)[6..8] == EncodeStart(r)[6..8];
    assert Encode(r)[8..16] == EncodeStart(r)[8..16];
    forall i | 0 <= i < |r.ips|
      ensures Word(Encode(r), 16 + 8 * i) == r.ips[i]
    {
      IpField(r, i);
    }
  }

  // ----- The stream of all records

  /** The linear stream of bytes that a list of records makes. */
  function Stream(rs: seq<Record>): (bytes: seq<Byte>) {
    if rs == [] then [] else Stream(rs[..|rs| - 1]) + Encode(rs[|rs| - 1])
  }

  function Chains(rs: seq<Record>): seq<seq<U64>> {
    seq(|rs|, i requires 0 <= i < |rs| => rs[i].ips)
  }

  lemma StreamNext(rs: seq<Record>, c: nat)
    requires c < |rs|
    ensures Stream(rs[..c + 1]) == Stream(rs[..c]) + Encode(rs[c])
  {
    assert rs[..c + 1][..c] == rs[..c];
  }

  lemma {:induction false} StreamPrefix(rs: seq<Record>, c: nat)
    requires c <= |rs|
    ensures Stream(rs[..c]) <= Stream(rs)
    decreases |rs| - c
  {
    if c < |rs| {
      StreamNext(rs, c);
      StreamPrefix(rs, c + 1);
    } else {
      assert rs[..c] == rs;
    }
  }

  /** Record `c` occupies the bytes of the stream right after those of the first `c`. */
  lemma StreamAt(rs: seq<Record>, c: nat)
    requires c < |rs|
    ensures var at := |Stream(rs[..c])|;
      && |Stream(rs[..c + 1])| == at + Size(rs[c]) <= |Stream(rs)|
      && Stream(rs)[at..at + Size(rs[c])] == Encode(rs[c])
  {
    StreamNext(rs, c);
    StreamPrefix(rs, c + 1);
    var upTo := Stream(rs[..c + 1]);
    var at := |Stream(rs[..c])|;
    assert Stream(rs)[..|upTo|] == upTo;
    assert Stream(rs)[at..|upTo|] == upTo[at..];
  }

  lemma {:induction false} StreamAligned(rs: seq<Record>)
    ensures |Stream(rs)| % 8 == 0
  {
    if rs != [] {
      StreamAligned(rs[..|rs| - 1]);
      AddEights(|Stream(rs[..|rs| - 1])|, 2 + |rs[|rs| - 1].ips|);
    }
  }

  lemma AddEights(n: nat, k: nat)
    requires n % 8 == 0
    ensures (n + 8 * k) % 8 == 0
  {}

  /** A shorter list of records makes a shorter stream. */
  lemma StreamGrows(rs: seq<Record>, c: nat)
    requires c <= |rs|
    ensures |Stream(rs[..c])| <= |Stream(rs)|
    ensures |Stream(rs[..c])| == |Stream(rs)| <==> c == |rs|
  {
    StreamPrefix(rs, c);
    if c < |rs| {
      StreamAt(rs, c);
    } else {
      assert rs[..c] == rs;
    }
  }

  lemma StreamOrder(rs: seq<Record>, a: nat, b: nat)
    requires a <= b <= |rs|
    ensures |Stream(rs[..a])| <= |Stream(rs[..b])| <= |Stream(rs)|
    ensures |Stream(rs[..a])| == |Stream(rs[..b])| <==> a == b
  {
    assert rs[..b][..a] == rs[..a];
    StreamGrows(rs, b);
    StreamGrows(rs[..b], a);
  }
}
