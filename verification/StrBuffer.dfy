/** The auto-resizing string buffer of src/util.c. */
module StrBuffers {
  import opened Text

  // ----- The buffer as a value

  /** Capacity, text held, and the bytes handed to realloc for copying so far. */
  datatype Buf = Buf(capacity: nat, text: string, moved: nat)

  /** What one call of strapp appends, and whether a resize would be granted. */
  datatype Piece = Piece(text: CString, granted: bool)

  function Doubled(c: nat, times: nat): nat {
    if times == 0 then c else 2 * Doubled(c, times - 1)
  }

  /** The first capacity, doubling from `c`, that exceeds `need`. */
  function Grown(c: nat, need: nat): (n: nat)
    requires 0 < c
    ensures n > need && n >= c
    ensures n > c ==> n <= 2 * need && n >= 2 * c
    decreases need + 1 - c
  {
    if c <= need then Grown(2 * c, need) else c
  }

  predicate Dropped(b: Buf, p: Piece)
    requires 0 < b.capacity
  {
    !p.granted && Grown(b.capacity, |b.text| + |p.text| + 1) > b.capacity
  }

  function Appended(b: Buf, p: Piece): Buf
    requires 0 < b.capacity
  {
    if Dropped(b, p) then b
    else
      var n := Grown(b.capacity, |b.text| + |p.text| + 1);
      Buf(n, b.text + p.text, b.moved + if n > b.capacity then b.capacity else 0)
  }

  /** A run of calls on a buffer. */
  function After(b: Buf, pieces: seq<Piece>): (r: Buf)
    requires 0 < b.capacity
    ensures 0 < r.capacity
  {
    if pieces == [] then b
    else Appended(After(b, pieces[..|pieces| - 1]), pieces[|pieces| - 1])
  }

  function Run(initial: nat, pieces: seq<Piece>): (b: Buf)
    requires 0 < initial
    ensures 0 < b.capacity
  {
    After(Buf(initial, "", 0), pieces)
  }

  lemma RunNext(initial: nat, pieces: seq<Piece>, p: Piece)
    requires 0 < initial
    ensures Run(initial, pieces + [p]) == Appended(Run(initial, pieces), p)
  {
    assert (pieces + [p])[..|pieces|] == pieces;
  }

  /** The arguments of a run of calls, in order, without those whose resize was refused. */
  function Kept(b: Buf, pieces: seq<Piece>): string
    requires 0 < b.capacity
  {
    if pieces == [] then ""
    else
      var before, last := pieces[..|pieces| - 1], pieces[|pieces| - 1];
      Kept(b, before) + if Dropped(After(b, before), last) then "" else last.text
  }

  function Texts(pieces: seq<Piece>): seq<string> {
    seq(|pieces|, i requires 0 <= i < |pieces| => pieces[i].text)
  }

  function Flat(texts: seq<string>): string {
    if texts == [] then "" else Flat(texts[..|texts| - 1]) + texts[|texts| - 1]
  }

  lemma FlatNext(texts: seq<string>, text: string)
    ensures Flat(texts + [text]) == Flat(texts) + text
  {
    assert (texts + [text])[..|texts|] == texts;
  }

  lemma {:induction false} FlatConcat(a: seq<string>, b: seq<string>)
    ensures Flat(a + b) == Flat(a) + Flat(b)
  {
    if b == [] {
      assert a + b == a;
    } else {
      var before, last := b[..|b| - 1], b[|b| - 1];
      FlatConcat(a, before);
      assert b == before + [last] && a + b == (a + before) + [last];
      FlatNext(a + before, last);
      FlatNext(before, last);
    }
  }

  lemma {:induction false} GrownDoubles(initial: nat, k: nat, need: nat) returns (times: nat)
    requires 0 < initial && 0 < Doubled(initial, k)
    ensures Grown(Doubled(initial, k), need) == Doubled(initial, times)
    decreases need + 1 - Doubled(initial, k)
  {
    if Doubled(initial, k) <= need {
      assert Doubled(initial, k + 1) == 2 * Doubled(initial, k);
      times := GrownDoubles(initial, k + 1, need);
    } else {
      times := k;
    }
  }

  /** Whatever is refused, the capacity is the initial one doubled some number of times, it
      stays within twice what the text needs, and all the copying of all the resizes
      together costs no more than the capacity gained. */
  lemma {:induction false} CapacityLaw(initial: nat, pieces: seq<Piece>) returns (times: nat)
    requires 0 < initial
    ensures var b := Run(initial, pieces);
      && |b.text| < b.capacity
      && b.capacity == Doubled(initial, times)
      && (b.capacity == initial || b.capacity <= 2 * (|b.text| + 1))
      && initial + b.moved <= b.capacity
  {
    if pieces == [] {
      times := 0;
    } else {
      var before, last := pieces[..|pieces| - 1], pieces[|pieces| - 1];
      var b := Run(initial, before);
      var k := CapacityLaw(initial, before);
      times := GrownDoubles(initial, k, |b.text| + |last.text| + 1);
      if Dropped(b, last) {
        times := k;
      }
    }
  }

  /** The text after a run of calls: the text before it, then exactly the arguments that were
      kept. */
  lemma {:induction false} TextLaw(b: Buf, pieces: seq<Piece>)
    requires 0 < b.capacity
    ensures After(b, pieces).text == b.text + Kept(b, pieces)
  {
    if pieces != [] {
      var before := pieces[..|pieces| - 1];
      TextLaw(b, before);
      assert b.text + Kept(b, before) + pieces[|before|].text == b.text + (Kept(b, before) + pieces[|before|].text);
    }
  }

  /** When every resize is granted nothing is dropped. */
  lemma {:induction false} GrantedLaw(b: Buf, pieces: seq<Piece>)
    requires 0 < b.capacity
    requires forall i :: 0 <= i < |pieces| ==> pieces[i].granted
    ensures Kept(b, pieces) == Flat(Texts(pieces))
  {
    if pieces != [] {
      var before := pieces[..|pieces| - 1];
      assert pieces[|before|].granted;
      GrantedLaw(b, before);
      assert Texts(pieces)[..|before|] == Texts(before);
    }
  }

  /** Checking that the current size changed detects a refused append exactly when the
      argument is not empty. */
  lemma SizeCheck(b: Buf, p: Piece)
    requires 0 < b.capacity
    ensures |Appended(b, p).text| == |b.text| <==> Dropped(b, p) || p.text == ""
  {}

  // ----- The buffer in place

  class StrBuffer {
    var buffer: array<char>
    var buffsize: nat
    var currsize: nat
    ghost const initial: nat
    ghost var moved: nat
    ghost var log: seq<Piece>

    ghost predicate Shape()
      reads this, buffer
    {
      && buffer.Length == buffsize
      && currsize < buffsize
      && buffer[currsize] == '\0'
      && forall i :: 0 <= i < currsize ==> buffer[i] != '\0'
    }

    ghost function Abs(): (b: Buf)
      reads this, buffer
      requires Shape()
      ensures 0 < b.capacity && '\0' !in b.text
    {
      Buf(buffsize, buffer[..currsize], moved)
    }

    /** The buffer is what its whole history of calls makes of it. */
    ghost predicate Valid()
      reads this, buffer
    {
      0 < initial && Shape() && Abs() == Run(initial, log)
    }

    constructor (size: nat)
      requires 0 < size
      ensures Valid() && fresh(buffer)
      ensures initial == size && log == []
    {
      buffer := new char[size](_ => '\0');
      buffsize, currsize := size, 0;
      initial, moved, log := size, 0, [];
    }

    /** strnew: no buffer for a size of zero or when an allocation fails. */
    static method New(size: nat, available: bool) returns (b: StrBuffer?)
      ensures b == null <==> size == 0 || !available
      ensures b != null ==> fresh(b) && b.Valid() && fresh(b.buffer) && b.initial == size && b.log == []
    {
      if size == 0 || !available {
        return null;
      }
      b := new StrBuffer(size);
    }

    /** The doubling loop of strapp. */
    method NewSize(appendLen: nat) returns (newSize: nat)
      requires Shape()
      ensures newSize == Grown(buffsize, currsize + appendLen)
    {
      newSize := buffsize;
      while newSize <= currsize + appendLen
        invariant 0 < newSize
        invariant Grown(newSize, currsize + appendLen) == Grown(buffsize, currsize + appendLen)
        decreases currsize + appendLen - newSize
      {
        newSize := 2 * newSize;
      }
    }

    /** The realloc of strapp: a larger copy of the buffer. */
    method Resize(newSize: nat)
      requires Shape() && buffsize < newSize
      modifies this`buffer, this`buffsize, this`moved
      ensures Shape() && fresh(buffer)
      ensures Abs() == Buf(newSize, old(Abs()).text, old(moved) + old(buffsize))
    {
      var newBuff := new char[newSize];
      forall i | 0 <= i < buffsize {
        newBuff[i] := buffer[i];
      }
      assert newBuff[..currsize] == buffer[..currsize];
      moved := moved + buffsize;
      buffer, buffsize := newBuff, newSize;
    }

    /** The strncpy of strapp: the text and its NUL over the end of the buffer. */
    method Put(text: CString)
      requires Shape() && currsize + |text| < buffsize
      modifies this`currsize, buffer
      ensures Shape()
      ensures Abs() == old(Abs()).(text := old(Abs()).text + text)
    {
      forall i | 0 <= i < |text| {
        buffer[currsize + i] := text[i];
      }
      buffer[currsize + |text|] := '\0';
      currsize := currsize + |text|;
      assert forall i :: 0 <= i < |text| ==> buffer[old(currsize) + i] == text[i];
      assert buffer[..currsize] == old(buffer[..currsize]) + text;
    }

    /** strapp; `granted` is the outcome of the realloc, if one is needed. */
    method Append(text: CString, granted: bool)
      requires Valid()
      modifies this, buffer
      ensures Valid() && (buffer == old(buffer) || fresh(buffer))
      ensures log == old(log) + [Piece(text, granted)]
      ensures Abs() == Appended(old(Abs()), Piece(text, granted))
    {
      RunNext(initial, log, Piece(text, granted));
      AppendText(text, granted);
      log := log + [Piece(text, granted)];
    }

    method AppendText(text: CString, granted: bool)
      requires Shape()
      modifies this`buffer, this`buffsize, this`currsize, this`moved, buffer
      ensures Shape() && (buffer == old(buffer) || fresh(buffer))
      ensures Abs() == Appended(old(Abs()), Piece(text, granted))
    {
      var newSize := NewSize(|text| + 1);
      if newSize > buffsize {
        if !granted {
          return;
        }
        Resize(newSize);
      }
      Put(text);
    }

    /** strfreewrap: the storage itself, which as a C string is the text appended. */
    method FreeWrap() returns (storage: array<char>)
      requires Valid()
      ensures storage == buffer && UntilNul(storage[..]) == Run(initial, log).text
    {
      storage := buffer;
      assert buffer[..][..currsize] == buffer[..currsize];
      UntilNulIsPrefix(buffer[..], currsize);
    }
  }
}
