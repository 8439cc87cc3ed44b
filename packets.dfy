/**
 * Test-packet contents: the bytes the loopback test writes, and the decimal
 * rendering of the sequence number inside them (Go's `%d` verb).
 */
module Packets {

  newtype byte = b: int | 0 <= b < 256

  /** A Go string or byte slice: both are plain byte sequences. */
  type Bytes = seq<byte>

  /** The hex rendering of a content hash. */
  type Digest = string

  const Prefix := "Test packet "

  predicate IsDigit(c: char) { '0' <= c <= '9' }

  predicate AllDigits(s: string) { forall k :: 0 <= k < |s| ==> IsDigit(s[k]) }

  predicate IsAscii(s: string) { forall k :: 0 <= k < |s| ==> s[k] as int < 128 }

  function DigitChar(d: nat): (c: char)
    requires d < 10
    ensures IsDigit(c) && c as int - '0' as int == d
  {
    ('0' as int + d) as char
  }

  /** Decimal digits of a natural number, most significant first, no leading zero. */
  function NatDigits(n: nat): (s: string)
    ensures |s| > 0 && AllDigits(s)
    ensures s[0] != '0' || n == 0
    decreases n
  {
    if n < 10 then [DigitChar(n)] else NatDigits(n / 10) + [DigitChar(n % 10)]
  }

  /** An integer as `fmt.Sprintf("%d", i)` writes it: a minus sign for negatives, then the digits. */
  function FormatInt(i: int): (s: string)
    ensures |s| > 0
    ensures i < 0 ==> s[0] == '-' && AllDigits(s[1..])
    ensures i >= 0 ==> AllDigits(s)
    ensures i < 0 ==> |s| > 1
    ensures s[if i < 0 then 1 else 0] != '0' || i == 0
  {
    if i < 0 then "-" + NatDigits(-i) else NatDigits(i)
  }

  /** Value of a string of decimal digits; the inverse of NatDigits. */
  function ParseDigits(s: string): nat
    requires AllDigits(s)
  {
    if s == [] then 0 else 10 * ParseDigits(s[..|s| - 1]) + (s[|s| - 1] as int - '0' as int)
  }

  /** Value of an optionally signed decimal; the inverse of FormatInt. */
  function ParseInt(s: string): int
    requires |s| > 0
    requires (s[0] == '-' && AllDigits(s[1..])) || AllDigits(s)
  {
    if s[0] == '-' then -(ParseDigits(s[1..]) as int) else ParseDigits(s)
  }

  lemma {:induction false} ParseNatDigits(n: nat)
    ensures ParseDigits(NatDigits(n)) == n
    decreases n
  {
    if n >= 10 {
      var s := NatDigits(n);
      assert s[..|s| - 1] == NatDigits(n / 10);
      ParseNatDigits(n / 10);
    }
  }

  /** Formatting loses nothing: the integer is recovered from its decimal text. */
  lemma {:induction false} FormatIntRoundTrip(i: int)
    ensures ParseInt(FormatInt(i)) == i
  {
    if i < 0 {
      assert FormatInt(i)[1..] == NatDigits(-i);
      ParseNatDigits(-i);
    } else {
      ParseNatDigits(i);
    }
  }

  /** `[]byte(s)` for a string of ASCII characters: one byte per character, same code. */
  function Ascii(s: string): (b: Bytes)
    requires IsAscii(s)
    ensures |b| == |s| && forall k :: 0 <= k < |s| ==> b[k] as int == s[k] as int
  {
    seq(|s|, k requires 0 <= k < |s| => s[k] as int as byte)
  }

  /** The text of the test packet with the given sequence number: "Test packet N". */
  function Text(seqIndex: int): string
  {
    Prefix + FormatInt(seqIndex)
  }

  /** The bytes written for sequence number `seqIndex`. */
  function Payload(seqIndex: int): (p: Bytes)
    ensures |p| == |Prefix| + |FormatInt(seqIndex)|
    ensures forall k :: 0 <= k < |p| ==> p[k] as int == Text(seqIndex)[k] as int
  {
    var t := Text(seqIndex);
    assert forall k :: 0 <= k < |t| ==> k < |Prefix| || IsDigit(t[k]) || t[k] == '-';
    Ascii(t)
  }

  /** Distinct sequence numbers give distinct packets, so no two packets of one run coincide. */
  lemma PayloadInjective(i: int, j: int)
    requires Payload(i) == Payload(j)
    ensures i == j
  {
    var ti, tj := Text(i), Text(j);
    assert |ti| == |tj|;
    forall k | 0 <= k < |ti| ensures ti[k] == tj[k] {
      assert Payload(i)[k] == Payload(j)[k];
    }
    assert ti == tj;
    assert FormatInt(i) == ti[|Prefix|..];
    assert FormatInt(j) == tj[|Prefix|..];
    FormatIntRoundTrip(i);
    FormatIntRoundTrip(j);
  }

  /** The sequence of packets written for sequence numbers from + 1 .. from + count. */
  function Payloads(from: int, count: nat): seq<Bytes>
  {
    seq(count, k => Payload(from + k + 1))
  }

  /** The packets of count + 1 iterations are those of the first count, then the next one. */
  lemma PayloadsNext(from: int, count: nat)
    ensures Payloads(from, count + 1) == Payloads(from, count) + [Payload(from + count + 1)]
    ensures TotalLength(Payloads(from, count + 1)) == TotalLength(Payloads(from, count)) + |Payload(from + count + 1)|
  {
    var a, b := Payloads(from, count + 1), Payloads(from, count) + [Payload(from + count + 1)];
    assert |a| == |b|;
    forall k | 0 <= k < |a| ensures a[k] == b[k] {
      if k < count { assert b[k] == Payloads(from, count)[k]; }
    }
    assert a[..count] == Payloads(from, count);
  }

  /** Total number of bytes in a sequence of packets. */
  function TotalLength(ps: seq<Bytes>): nat
  {
    if ps == [] then 0 else TotalLength(ps[..|ps| - 1]) + |ps[|ps| - 1]|
  }
}
