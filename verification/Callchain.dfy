/** The text of a callchain report: append_symbols_from_sample of src/perf.c. */
module Callchains {
  import opened Text
  import opened StrBuffers

  /** Symbol lookup: absent, or an arbitrary partial map from addresses to names. */
  type Symbols = Option<U64 -> Option<CString>>

  const MAX_FRAMES := 50
  const IP_BUFFER_SIZE := 20

  /** What snprintf leaves in a buffer of `size` characters. */
  function Snprintf(text: CString, size: nat): CString
    requires 0 < size
  {
    if |text| < size then text else text[..size - 1]
  }

  function Address(ip: U64): (s: CString) { "0x" + Print(ip, Hexadecimal) }

  function Symbol(ip: U64, dwfl: Symbols): Option<CString> {
    match dwfl
    case None => None
    case Some(lookup) => lookup(ip)
  }

  // ----- What is appended, piece by piece

  function FramePieces(ip: U64, dwfl: Symbols): seq<CString> {
    match Symbol(ip, dwfl)
    case Some(name) => [name, ";"]
    case None => [Snprintf(Address(ip) + ";", IP_BUFFER_SIZE)]
  }

  /** The pieces of the first `n` frames of a call chain. */
  function FramesPieces(ips: seq<U64>, n: nat, dwfl: Symbols): seq<CString>
    requires n <= |ips|
  {
    if n == 0 then [] else FramesPieces(ips, n - 1, dwfl) + FramePieces(ips[n - 1], dwfl)
  }

  function SamplePieces(ips: seq<U64>, dwfl: Symbols): seq<CString> {
    if |ips| > MAX_FRAMES then [] else FramesPieces(ips, |ips|, dwfl) + ["|"]
  }

  /** The pieces of samples `from` to `to`. */
  function SamplesPieces(samples: seq<seq<U64>>, from: nat, to: nat, dwfl: Symbols): seq<CString>
    requires from <= to <= |samples|
  {
    if to == from then []
    else SamplesPieces(samples, from, to - 1, dwfl) + SamplePieces(samples[to - 1], dwfl)
  }

  // ----- What the report means

  function FrameName(ip: U64, dwfl: Symbols): (name: CString) {
    match Symbol(ip, dwfl)
    case Some(name) => name
    case None => Address(ip)
  }

  function FrameNames(ips: seq<U64>, dwfl: Symbols): seq<string> {
    seq(|ips|, i requires 0 <= i < |ips| => FrameName(ips[i], dwfl))
  }

  /** The samples that are reported at all. */
  function Reported(samples: seq<seq<U64>>): (r: seq<seq<U64>>)
    ensures |r| <= |samples|
  {
    if samples == [] then []
    else
      var last := samples[|samples| - 1];
      Reported(samples[..|samples| - 1]) + if |last| > MAX_FRAMES then [] else [last]
  }

  /** One line per reported sample: its frames, each closed by ';'. */
  function Lines(samples: seq<seq<U64>>, dwfl: Symbols): seq<string> {
    seq(|samples|, i requires 0 <= i < |samples| => Closed(FrameNames(samples[i], dwfl), ';'))
  }

  function Report(samples: seq<seq<U64>>, dwfl: Symbols): string {
    Closed(Lines(Reported(samples), dwfl), '|')
  }

  lemma Pow16Is()
    ensures Pow16(16) == 0x1_0000_0000_0000_0000
  {
    assert Pow16(4) == 0x1_0000;
    assert Pow16(8) == 0x1_0000_0000;
    assert Pow16(12) == 0x1_0000_0000_0000;
  }

  lemma AddressFits(ip: U64)
    ensures |Address(ip) + ";"| <= 19
    ensures forall c :: c in Address(ip) ==> IsDigit(c) || c == 'x'
  {
    Pow16Is();
    HexLength(ip, 16);
    PrefixedDigits(Print(ip, Hexadecimal));
  }

  lemma PrefixedDigits(digits: string)
    requires AreDigits(digits)
    ensures forall c :: c in "0x" + digits ==> IsDigit(c) || c == 'x'
  {}

  lemma FrameText(ip: U64, dwfl: Symbols)
    ensures Flat(FramePieces(ip, dwfl)) == FrameName(ip, dwfl) + ";"
  {
    AddressFits(ip);
    var pieces := FramePieces(ip, dwfl);
    if Symbol(ip, dwfl).Some? {
      assert pieces[..1] == [pieces[0]] && pieces[..1][..0] == [];
      assert Flat(pieces[..1]) == pieces[0];
    } else {
      assert pieces[..0] == [];
    }
  }

  lemma {:induction false} FramesText(ips: seq<U64>, n: nat, dwfl: Symbols)
    requires n <= |ips|
    ensures Flat(FramesPieces(ips, n, dwfl)) == Closed(FrameNames(ips[..n], dwfl), ';')
  {
    if n > 0 {
      FramesText(ips, n - 1, dwfl);
      FrameText(ips[n - 1], dwfl);
      FlatConcat(FramesPieces(ips, n - 1, dwfl), FramePieces(ips[n - 1], dwfl));
      ClosedNames(ips, n, dwfl);
    }
  }

  lemma ClosedNames(ips: seq<U64>, n: nat, dwfl: Symbols)
    requires 0 < n <= |ips|
    ensures Closed(FrameNames(ips[..n], dwfl), ';')
      == Closed(FrameNames(ips[..n - 1], dwfl), ';') + (FrameName(ips[n - 1], dwfl) + ";")
  {
    var before, last := FrameNames(ips[..n - 1], dwfl), FrameName(ips[n - 1], dwfl);
    assert FrameNames(ips[..n], dwfl) == before + [last];
    ClosedConcat(before, [last], ';');
    assert Closed([last], ';') == last + ";";
  }

  lemma SampleText(ips: seq<U64>, dwfl: Symbols)
    ensures Flat(SamplePieces(ips, dwfl)) == Report([ips], dwfl)
  {
    var one: seq<seq<U64>> := [ips];
    assert one[..0] == [];
    assert Reported([ips]) == if |ips| > MAX_FRAMES then [] else [ips];
    if |ips| <= MAX_FRAMES {
      FramesText(ips, |ips|, dwfl);
      assert ips[..|ips|] == ips;
      FlatConcat(FramesPieces(ips, |ips|, dwfl), ["|"]);
      assert ["|"][..0] == [];
      assert Flat(["|"]) == "|";
      var line := Closed(FrameNames(ips, dwfl), ';');
      assert Lines(Reported(one), dwfl) == [line];
      assert Closed([line], '|') == line + "|";
    }
  }

  lemma {:induction false} ReportedConcat(a: seq<seq<U64>>, b: seq<seq<U64>>)
    ensures Reported(a + b) == Reported(a) + Reported(b)
  {
    if b == [] {
      assert a + b == a;
    } else {
      assert (a + b)[..|a + b| - 1] == a + b[..|b| - 1];
      ReportedConcat(a, b[..|b| - 1]);
    }
  }

  /** The report of two lists of samples in a row is the two reports in a row. */
  lemma ReportConcat(a: seq<seq<U64>>, b: seq<seq<U64>>, dwfl: Symbols)
    ensures Report(a + b, dwfl) == Report(a, dwfl) + Report(b, dwfl)
  {
    ReportedConcat(a, b);
    var ra, rb := Reported(a), Reported(b);
    assert Lines(ra + rb, dwfl) == Lines(ra, dwfl) + Lines(rb, dwfl);
    ClosedConcat(Lines(ra, dwfl), Lines(rb, dwfl), '|');
  }

  lemma ReportNext(samples: seq<seq<U64>>, from: nat, to: nat, dwfl: Symbols)
    requires from < to <= |samples|
    ensures Report(samples[from..to], dwfl) ==
      Report(samples[from..to - 1], dwfl) + Report([samples[to - 1]], dwfl)
  {
    assert samples[from..to] == samples[from..to - 1] + [samples[to - 1]];
    ReportConcat(samples[from..to - 1], [samples[to - 1]], dwfl);
  }

  /** The pieces appended for a list of samples spell the report; no address is truncated. */
  lemma {:induction false} SamplesText(samples: seq<seq<U64>>, from: nat, to: nat, dwfl: Symbols)
    requires from <= to <= |samples|
    ensures Flat(SamplesPieces(samples, from, to, dwfl)) == Report(samples[from..to], dwfl)
  {
    if from < to {
      SamplesText(samples, from, to - 1, dwfl);
      ReportNext(samples, from, to, dwfl);
      SampleText(samples[to - 1], dwfl);
      FlatConcat(SamplesPieces(samples, from, to - 1, dwfl), SamplePieces(samples[to - 1], dwfl));
    }
  }

  // ----- Reading a report back

  function ReadLines(lines: seq<string>): (r: Option<seq<seq<string>>>) {
    if lines == [] then Some([])
    else
      match (Unclose(lines[0], ';'), ReadLines(lines[1..]))
      case (Some(frames), Some(rest)) => Some([frames] + rest)
      case _ => None
  }

  function ReadReport(text: string): Option<seq<seq<string>>> {
    match Unclose(text, '|')
    case None => None
    case Some(lines) => ReadLines(lines)
  }

  function ReadAddress(frame: string): (r: Option<nat>) {
    if |frame| > 2 && frame[..2] == "0x" then Read(frame[2..], Hexadecimal) else None
  }

  /** No name in these samples contains a separator. */
  ghost predicate NamesFree(samples: seq<seq<U64>>, dwfl: Symbols) {
    forall i :: 0 <= i < |samples| ==>
      Free(FrameNames(samples[i], dwfl), ';') && Free(FrameNames(samples[i], dwfl), '|')
  }

  /** The frame names of every sample. */
  function AllFrames(samples: seq<seq<U64>>, dwfl: Symbols): (r: seq<seq<string>>)
    ensures |r| == |samples|
    ensures forall i :: 0 <= i < |r| ==> r[i] == FrameNames(samples[i], dwfl)
  {
    if samples == [] then [] else [FrameNames(samples[0], dwfl)] + AllFrames(samples[1..], dwfl)
  }

  lemma LinesFree(samples: seq<seq<U64>>, dwfl: Symbols)
    requires NamesFree(samples, dwfl)
    ensures Free(Lines(samples, dwfl), '|')
  {
    forall i | 0 <= i < |samples|
      ensures '|' !in Closed(FrameNames(samples[i], dwfl), ';')
    {
      ClosedFree(FrameNames(samples[i], dwfl), ';', '|');
    }
  }

  lemma {:induction false} LinesRead(samples: seq<seq<U64>>, dwfl: Symbols)
    requires NamesFree(samples, dwfl)
    ensures ReadLines(Lines(samples, dwfl)) == Some(AllFrames(samples, dwfl))
  {
    if samples != [] {
      var rest := samples[1..];
      RestFree(samples, rest, dwfl);
      LinesRead(rest, dwfl);
      FirstLineRead(samples, rest, dwfl);
    }
  }

  lemma RestFree(samples: seq<seq<U64>>, rest: seq<seq<U64>>, dwfl: Symbols)
    requires samples != [] && rest == samples[1..] && NamesFree(samples, dwfl)
    ensures NamesFree(rest, dwfl)
  {
    assert forall i :: 0 <= i < |rest| ==> rest[i] == samples[i + 1];
  }

  lemma FirstLineRead(samples: seq<seq<U64>>, rest: seq<seq<U64>>, dwfl: Symbols)
    requires samples != [] && rest == samples[1..] && NamesFree(samples, dwfl)
    requires ReadLines(Lines(rest, dwfl)) == Some(AllFrames(rest, dwfl))
    ensures ReadLines(Lines(samples, dwfl)) == Some(AllFrames(samples, dwfl))
  {
    UncloseClosed(FrameNames(samples[0], dwfl), ';');
    LinesRest(samples, rest, dwfl);
  }

  lemma LinesRest(samples: seq<seq<U64>>, rest: seq<seq<U64>>, dwfl: Symbols)
    requires samples != [] && rest == samples[1..]
    ensures Lines(samples, dwfl)[1..] == Lines(rest, dwfl)
  {}

  /** Lines that read as frames are those frames, closed, and no frame holds a ';'. */
  lemma {:induction false} ReadLinesInverse(lines: seq<string>)
    requires ReadLines(lines).Some?
    ensures |ReadLines(lines).value| == |lines|
    ensures forall i :: 0 <= i < |lines| ==>
      lines[i] == Closed(ReadLines(lines).value[i], ';') && Free(ReadLines(lines).value[i], ';')
  {
    if lines != [] {
      ReadLinesInverse(lines[1..]);
      UncloseIsClosed(lines[0], ';');
      assert forall i :: 1 <= i < |lines| ==> lines[i] == lines[1..][i - 1];
    }
  }

  /** A text that reads as the frames of some samples is made of their lines. */
  lemma ReadingFixesLines(text: string, samples: seq<seq<U64>>, dwfl: Symbols)
    requires ReadReport(text) == Some(AllFrames(samples, dwfl))
    ensures Unclose(text, '|') == Some(Lines(samples, dwfl))
    ensures forall i :: 0 <= i < |samples| ==> Free(FrameNames(samples[i], dwfl), ';')
  {
    var lines := Unclose(text, '|').value;
    ReadLinesInverse(lines);
    assert lines == Lines(samples, dwfl);
  }

  lemma ReadableNamesFree(text: string, samples: seq<seq<U64>>, dwfl: Symbols)
    requires ReadReport(text) == Some(AllFrames(samples, dwfl))
    ensures NamesFree(samples, dwfl)
  {
    ReadingFixesLines(text, samples, dwfl);
    UncloseIsClosed(text, '|');
    var lines := Lines(samples, dwfl);
    forall i | 0 <= i < |samples|
      ensures Free(FrameNames(samples[i], dwfl), '|')
    {
      assert '|' !in lines[i];
      ClosedIsFree(FrameNames(samples[i], dwfl), ';', '|');
    }
  }

  /** A report splits back into the frames of each reported sample exactly when no name in it
      contains a separator. */
  lemma ReportIsReadable(samples: seq<seq<U64>>, dwfl: Symbols)
    ensures ReadReport(Report(samples, dwfl)) == Some(AllFrames(Reported(samples), dwfl))
      <==> NamesFree(Reported(samples), dwfl)
  {
    var reported := Reported(samples);
    if NamesFree(reported, dwfl) {
      LinesRead(reported, dwfl);
      LinesFree(reported, dwfl);
      UncloseClosed(Lines(reported, dwfl), '|');
    }
    if ReadReport(Report(samples, dwfl)) == Some(AllFrames(reported, dwfl)) {
      ReadableNamesFree(Report(samples, dwfl), reported, dwfl);
    }
  }

  /** With a separator in a symbol, one frame and two frames can print alike. */
  lemma SeparatorsConfuse() returns (dwfl: Symbols, a: seq<seq<U64>>, b: seq<seq<U64>>)
    ensures !NamesFree(a, dwfl) && NamesFree(b, dwfl) && Reported(a) == a && Reported(b) == b && a != b
    ensures Report(a, dwfl) == Report(b, dwfl)
  {
    dwfl := Some((ip: U64) => Some(if ip == 0 then "f;g" else if ip == 1 then "f" else "g"));
    var one: seq<U64>, two: seq<U64> := [0], [1, 2];
    a, b := [one], [two];
    assert a[..0] == [] && b[..0] == [];
    assert |one| != |two|;
    assert FrameNames(one, dwfl) == ["f;g"] && FrameNames(two, dwfl) == ["f", "g"];
    assert ';' == "f;g"[1] && "f;g" == FrameNames(a[0], dwfl)[0];
    assert !Free(FrameNames(a[0], dwfl), ';');
    assert FrameNames(b[0], dwfl)[0] == "f" && FrameNames(b[0], dwfl)[1] == "g";
    SameLine();
    assert Lines(a, dwfl) == [Closed(FrameNames(one, dwfl), ';')];
    assert Lines(b, dwfl) == [Closed(FrameNames(two, dwfl), ';')];
  }

  lemma SameLine()
    ensures Closed(["f;g"], ';') == Closed(["f", "g"], ';')
  {
    assert ["f", "g"][1..] == ["g"] && Closed(["g"], ';') == "g;" && Closed(["f;g"], ';') == "f;g" + ";";
    assert ["f;g"][1..] == [] && ["g"][1..] == [];
    assert Closed(["f", "g"], ';') == "f;g;";
  }

  lemma AddressIsReadable(ip: U64)
    ensures ReadAddress(Address(ip)) == Some(ip)
  {
    assert Address(ip)[2..] == Print(ip, Hexadecimal);
    ReadPrint(ip, Hexadecimal);
  }

  function ReadAddresses(frames: seq<string>): Option<seq<nat>> {
    if frames == [] then Some([])
    else
      match (ReadAddress(frames[0]), ReadAddresses(frames[1..]))
      case (Some(ip), Some(rest)) => Some([ip] + rest)
      case _ => None
  }

  function ReadAllAddresses(samples: seq<seq<string>>): Option<seq<seq<nat>>> {
    if samples == [] then Some([])
    else
      match (ReadAddresses(samples[0]), ReadAllAddresses(samples[1..]))
      case (Some(ips), Some(rest)) => Some([ips] + rest)
      case _ => None
  }

  function ReadAddressReport(text: string): Option<seq<seq<nat>>> {
    match ReadReport(text)
    case None => None
    case Some(samples) => ReadAllAddresses(samples)
  }

  lemma {:induction false} AddressesRead(ips: seq<U64>)
    ensures ReadAddresses(FrameNames(ips, None)) == Some(ips)
  {
    if ips != [] {
      AddressIsReadable(ips[0]);
      assert FrameNames(ips, None)[1..] == FrameNames(ips[1..], None);
      AddressesRead(ips[1..]);
      assert ips == [ips[0]] + ips[1..];
    }
  }

  lemma {:induction false} AllAddressesRead(samples: seq<seq<U64>>)
    ensures ReadAllAddresses(AllFrames(samples, None)) == Some(samples)
  {
    if samples != [] {
      AddressesRead(samples[0]);
      AllAddressesRead(samples[1..]);
      assert samples == [samples[0]] + samples[1..];
    }
  }

  lemma AddressesFree(samples: seq<seq<U64>>)
    ensures NamesFree(samples, None)
  {
    forall i, j | 0 <= i < |samples| && 0 <= j < |samples[i]|
      ensures ';' !in FrameNames(samples[i], None)[j] && '|' !in FrameNames(samples[i], None)[j]
    {
      AddressFits(samples[i][j]);
    }
  }

  /** Without symbols a report reads back to the exact addresses of every reported sample. */
  lemma ReportRoundTrip(samples: seq<seq<U64>>)
    ensures ReadAddressReport(Report(samples, None)) == Some(Reported(samples))
  {
    AddressesFree(Reported(samples));
    ReportIsReadable(samples, None);
    AllAddressesRead(Reported(samples));
  }

  // ----- What a reader of a report sees

  /** The frame of an address: the name that the lookup gives it, or else the address itself. */
  ghost predicate Shows(frame: string, ip: U64, dwfl: Symbols) {
    if dwfl.Some? && dwfl.value(ip).Some? then frame == dwfl.value(ip).value
    else frame == "0x" + Print(ip, Hexadecimal) && ReadAddress(frame) == Some(ip)
  }

  ghost predicate ShowsChain(frames: seq<string>, ips: seq<U64>, dwfl: Symbols) {
    |frames| == |ips| && forall j :: 0 <= j < |frames| ==> Shows(frames[j], ips[j], dwfl)
  }

  /** A text that reads as one list of frames for each of these samples. */
  ghost predicate ReadsAs(text: string, samples: seq<seq<U64>>, dwfl: Symbols) {
    var read := ReadReport(text);
    && read.Some? && |read.value| == |samples|
    && forall i :: 0 <= i < |samples| ==> ShowsChain(read.value[i], samples[i], dwfl)
  }

  /** The lookup gives no address of these samples a name with a separator. */
  ghost predicate CleanNames(samples: seq<seq<U64>>, dwfl: Symbols) {
    dwfl.Some? ==>
      forall i, j :: 0 <= i < |samples| && 0 <= j < |samples[i]| && dwfl.value(samples[i][j]).Some? ==>
        var name := dwfl.value(samples[i][j]).value; ';' !in name && '|' !in name
  }

  lemma FrameShows(ip: U64, dwfl: Symbols)
    ensures Shows(FrameName(ip, dwfl), ip, dwfl)
  {
    AddressIsReadable(ip);
  }

  lemma CleanIsFree(samples: seq<seq<U64>>, dwfl: Symbols)
    requires CleanNames(samples, dwfl)
    ensures NamesFree(samples, dwfl)
  {
    forall i, j | 0 <= i < |samples| && 0 <= j < |samples[i]|
      ensures ';' !in FrameNames(samples[i], dwfl)[j] && '|' !in FrameNames(samples[i], dwfl)[j]
    {
      AddressFits(samples[i][j]);
    }
  }

  /** Frame j of reported sample i is the name that the lookup itself gives to address j of that
      sample, and the address when it has no name. */
  lemma ReportShowsFrames(samples: seq<seq<U64>>, dwfl: Symbols)
    requires CleanNames(Reported(samples), dwfl)
    ensures ReadsAs(Report(samples, dwfl), Reported(samples), dwfl)
  {
    var reported := Reported(samples);
    CleanIsFree(reported, dwfl);
    ReportIsReadable(samples, dwfl);
    forall i, j | 0 <= i < |reported| && 0 <= j < |reported[i]|
      ensures Shows(FrameNames(reported[i], dwfl)[j], reported[i][j], dwfl)
    {
      FrameShows(reported[i][j], dwfl);
    }
  }

  /** The same for what is appended for one sample; a longer call chain appends nothing. */
  lemma SampleShowsFrames(ips: seq<U64>, dwfl: Symbols)
    requires CleanNames([ips], dwfl)
    ensures if |ips| <= 50 then ReadsAs(Flat(SamplePieces(ips, dwfl)), [ips], dwfl) else SamplePieces(ips, dwfl) == []
  {
    if |ips| <= 50 {
      assert [ips][..0] == [];
      assert Reported([ips]) == [ips];
      SampleText(ips, dwfl);
      ReportShowsFrames([ips], dwfl);
    }
  }

  /** The samples at these positions. */
  function Pick(samples: seq<seq<U64>>, at: seq<nat>): seq<seq<U64>>
    requires forall k :: 0 <= k < |at| ==> at[k] < |samples|
  {
    seq(|at|, k requires 0 <= k < |at| => samples[at[k]])
  }

  /** In increasing order, all the positions of samples with at most 50 addresses. */
  ghost predicate ShortOnes(samples: seq<seq<U64>>, at: seq<nat>) {
    && (forall k :: 0 <= k < |at| ==> at[k] < |samples|)
    && (forall k, l :: 0 <= k < l < |at| ==> at[k] < at[l])
    && (forall i: nat :: i in at <==> i < |samples| && |samples[i]| <= 50)
  }

  lemma OneMoreShort(samples: seq<seq<U64>>, last: seq<U64>, at: seq<nat>)
    requires ShortOnes(samples, at)
    ensures |last| <= 50 ==> ShortOnes(samples + [last], at + [|samples|])
    ensures |last| > 50 ==> ShortOnes(samples + [last], at)
  {
    forall k | 0 <= k < |at|
      ensures at[k] in at && at[k] < |samples|
    {}
    assert forall i: nat :: i in at + [|samples|] <==> i in at || i == |samples|;
    assert forall i :: 0 <= i < |samples| ==> (samples + [last])[i] == samples[i];
  }

  /** The samples reported are exactly those with at most 50 addresses, in order. */
  lemma {:induction false} ReportedAreShort(samples: seq<seq<U64>>) returns (at: seq<nat>)
    ensures ShortOnes(samples, at) && Reported(samples) == Pick(samples, at)
  {
    if samples == [] {
      at := [];
    } else {
      var before, last := samples[..|samples| - 1], samples[|samples| - 1];
      at := ReportedAreShort(before);
      assert samples == before + [last];
      OneMoreShort(before, last, at);
      assert Pick(samples, at) == Pick(before, at);
      if |last| <= 50 {
        assert Pick(samples, at + [|before|]) == Pick(before, at) + [last];
        at := at + [|before|];
      }
    }
  }
}
