/** Strings as the sensor builds and reads them: fields closed by a separator,
    numbers printed in a base, and the formatted write of the C library into a
    bounded buffer. */
module Text {

  datatype Option<+T> = None | Some(value: T)

  type U64 = x: int | 0 <= x < 0x1_0000_0000_0000_0000

  type CString = s: string | '\0' !in s

  /** The C string stored at the start of a buffer: everything before the first NUL. */
  function UntilNul(s: string): (r: string)
    ensures |r| <= |s|
  {
    if s == [] || s[0] == '\0' then "" else [s[0]] + UntilNul(s[1..])
  }

  lemma {:induction false} UntilNulIsPrefix(s: string, n: nat)
    requires n < |s| && s[n] == '\0' && '\0' !in s[..n]
    ensures UntilNul(s) == s[..n]
  {
    if n > 0 {
      assert s[0] == s[..n][0];
      assert s[1..][..n - 1] == s[..n][1..];
      UntilNulIsPrefix(s[1..], n - 1);
      assert s[..n] == [s[0]] + s[1..][..n - 1];
    }
  }

  // ----- Fields closed by a separator

  /** Every part followed by the separator. */
  function Closed(parts: seq<string>, sep: char): string {
    if parts == [] then "" else parts[0] + [sep] + Closed(parts[1..], sep)
  }

  /** The parts of a text in which every part is closed by `sep`; None for an unclosed end. */
  function Unclose(s: string, sep: char): (r: Option<seq<string>>)
    decreases |s|
  {
    if s == "" then Some([])
    else
      var n := Index(s, sep);
      if n == |s| then None
      else
        match Unclose(s[n + 1..], sep)
        case None => None
        case Some(rest) => Some([s[..n]] + rest)
  }

  /** The position of the first `c`, or the length of the text. */
  function Index(s: string, c: char): (n: nat)
    ensures n <= |s| && (forall i :: 0 <= i < n ==> s[i] != c)
    ensures n < |s| ==> s[n] == c
  {
    if s == "" || s[0] == c then 0 else 1 + Index(s[1..], c)
  }

  lemma IndexIsFirst(s: string, c: char, n: nat)
    requires n < |s| && s[n] == c && (forall i :: 0 <= i < n ==> s[i] != c)
    ensures Index(s, c) == n
  {}

  ghost predicate Free(parts: seq<string>, sep: char) {
    forall i :: 0 <= i < |parts| ==> sep !in parts[i]
  }

  lemma UncloseFirst(part: string, sep: char, rest: string)
    requires sep !in part
    ensures Unclose(part + [sep] + rest, sep) ==
      match Unclose(rest, sep)
      case None => None
      case Some(parts) => Some([part] + parts)
  {
    var s, n := part + [sep] + rest, |part|;
    IndexIsFirst(s, sep, n);
    assert s[..n] == part && s[n + 1..] == rest;
  }

  lemma {:induction false} UncloseClosed(parts: seq<string>, sep: char)
    requires Free(parts, sep)
    ensures Unclose(Closed(parts, sep), sep) == Some(parts)
  {
    if parts != [] {
      UncloseClosed(parts[1..], sep);
      UncloseFirst(parts[0], sep, Closed(parts[1..], sep));
      assert parts == [parts[0]] + parts[1..];
    }
  }

  /** What reads back as parts is those parts, closed, and none of them holds the separator. */
  lemma {:induction false} UncloseIsClosed(s: string, sep: char)
    requires Unclose(s, sep).Some?
    ensures Closed(Unclose(s, sep).value, sep) == s && Free(Unclose(s, sep).value, sep)
    decreases |s|
  {
    if s != "" {
      var n := Index(s, sep);
      UncloseIsClosed(s[n + 1..], sep);
      ClosedFirst(s, n, sep, Unclose(s[n + 1..], sep).value);
    }
  }

  lemma ClosedFirst(s: string, n: nat, sep: char, rest: seq<string>)
    requires n < |s| && s[n] == sep && forall i :: 0 <= i < n ==> s[i] != sep
    requires Closed(rest, sep) == s[n + 1..] && Free(rest, sep)
    ensures Closed([s[..n]] + rest, sep) == s && Free([s[..n]] + rest, sep)
  {
    assert ([s[..n]] + rest)[1..] == rest;
    assert s == s[..n] + [sep] + s[n + 1..];
  }

  lemma {:induction false} ClosedConcat(a: seq<string>, b: seq<string>, sep: char)
    ensures Closed(a + b, sep) == Closed(a, sep) + Closed(b, sep)
  {
    if a == [] {
      assert a + b == b;
    } else {
      assert (a + b)[1..] == a[1..] + b;
      ClosedConcat(a[1..], b, sep);
    }
  }

  lemma {:induction false} ClosedFree(parts: seq<string>, sep: char, c: char)
    requires c != sep && Free(parts, c)
    ensures c !in Closed(parts, sep)
  {
    if parts != [] {
      ClosedFree(parts[1..], sep, c);
      assert c !in parts[0];
    }
  }

  lemma {:induction false} ClosedIsFree(parts: seq<string>, sep: char, c: char)
    requires c !in Closed(parts, sep)
    ensures Free(parts, c)
  {
    if parts != [] {
      var rest := Closed(parts[1..], sep);
      assert Closed(parts, sep) == (parts[0] + [sep]) + rest;
      ClosedIsFree(parts[1..], sep, c);
      assert parts == [parts[0]] + parts[1..];
    }
  }

  // ----- Fields between separators

  function Join(parts: seq<string>, sep: char): string
    requires parts != []
  {
    if |parts| == 1 then parts[0] else parts[0] + [sep] + Join(parts[1..], sep)
  }

  /** Splitting on a separator is reading the closed form of the text with one more separator. */
  function Split(s: string, sep: char): (r: seq<string>) {
    match Unclose(s + [sep], sep)
    case Some(parts) => parts
    case None => []
  }

  lemma {:induction false} JoinClosed(parts: seq<string>, sep: char)
    requires parts != []
    ensures Join(parts, sep) + [sep] == Closed(parts, sep)
  {
    if |parts| == 1 {
      assert Closed(parts[1..], sep) == "";
    } else {
      JoinClosed(parts[1..], sep);
    }
  }

  lemma {:induction false} JoinAppend(parts: seq<string>, last: string, sep: char)
    requires parts != []
    ensures Join(parts + [last], sep) == Join(parts, sep) + [sep] + last
  {
    if |parts| > 1 {
      assert (parts + [last])[1..] == parts[1..] + [last];
      JoinAppend(parts[1..], last, sep);
    } else {
      assert (parts + [last])[1..] == [last];
    }
  }

  lemma SplitJoin(parts: seq<string>, sep: char)
    requires parts != [] && Free(parts, sep)
    ensures Split(Join(parts, sep), sep) == parts
  {
    JoinClosed(parts, sep);
    UncloseClosed(parts, sep);
  }

  lemma {:induction false} JoinFree(parts: seq<string>, sep: char, c: char)
    requires parts != [] && c != sep && Free(parts, c)
    ensures c !in Join(parts, sep)
  {
    assert c !in parts[0];
    if |parts| > 1 {
      JoinFree(parts[1..], sep, c);
    }
  }

  // ----- Numbers

  datatype Radix = Decimal | Hexadecimal {
    function Base(): (b: nat)
      ensures 10 <= b <= 16
    {
      if Decimal? then 10 else 16
    }

    function High(n: nat): nat { if Decimal? then n / 10 else n / 16 }

    function Low(n: nat): nat { if Decimal? then n % 10 else n % 16 }

    function Glue(high: nat, low: nat): nat { if Decimal? then high * 10 + low else high * 16 + low }
  }

  function Digit(d: nat): (c: char)
    requires d < 16
    ensures IsDigit(c) && DigitValue(c) == d
  {
    if d < 10 then '0' + d as char else 'a' + (d - 10) as char
  }

  predicate IsDigit(c: char) { '0' <= c <= '9' || 'a' <= c <= 'f' }

  function DigitValue(c: char): (d: nat) {
    if '0' <= c <= '9' then c as nat - '0' as nat
    else if 'a' <= c <= 'f' then c as nat - 'a' as nat + 10
    else 16
  }

  predicate AreDigits(s: string) { forall i :: 0 <= i < |s| ==> IsDigit(s[i]) }

  /** The digits of `n` in lower case, most significant first ("%lu" or "%lx"). */
  function Print(n: nat, r: Radix): (s: string)
    ensures |s| > 0 && AreDigits(s)
  {
    if n < r.Base() then [Digit(n)] else Print(r.High(n), r) + [Digit(r.Low(n))]
  }

  function Read(s: string, r: Radix): (n: Option<nat>) {
    if s == "" then None
    else
      var d := DigitValue(s[|s| - 1]);
      if d >= r.Base() then None
      else if |s| == 1 then Some(d)
      else
        match Read(s[..|s| - 1], r)
        case None => None
        case Some(high) => Some(r.Glue(high, d))
  }

  lemma {:induction false} ReadPrint(n: nat, r: Radix)
    ensures Read(Print(n, r), r) == Some(n)
  {
    if n >= r.Base() {
      var s := Print(n, r);
      assert s[..|s| - 1] == Print(r.High(n), r);
      ReadPrint(r.High(n), r);
    }
  }

  /** A printed number has the digits of its base only, in lower case, and no leading zero. */
  lemma {:induction false} PrintDigits(n: nat, r: Radix)
    ensures Print(n, r) != "" && (n > 0 ==> Print(n, r)[0] != '0')
    ensures forall c :: c in Print(n, r) ==> '0' <= c <= '9' || (r.Hexadecimal? && 'a' <= c <= 'f')
  {
    if n >= r.Base() {
      PrintDigits(r.High(n), r);
    }
  }

  function Pow16(e: nat): nat {
    if e == 0 then 1 else 16 * Pow16(e - 1)
  }

  /** A number below 16^k prints in at most k hexadecimal digits. */
  lemma {:induction false} HexLength(n: nat, k: nat)
    ensures k > 0 && n < Pow16(k) ==> |Print(n, Hexadecimal)| <= k
  {
    if k > 0 && n < Pow16(k) && n >= 16 {
      assert Pow16(k) == 16 * Pow16(k - 1);
      assert Pow16(0) == 1;
      HighBelow(n, Pow16(k - 1));
      HexLength(n / 16, k - 1);
    }
  }

  lemma HighBelow(n: nat, p: nat)
    requires n < 16 * p
    ensures n / 16 < p
  {}
}
