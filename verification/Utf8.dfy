/** UTF-8 (RFC 3629): the octets of a text, and which of them may start a character. */
module Utf8 {

  type byte = x: int | 0 <= x < 256

  /** The octets of one character. */
  function Encode1(c: char): (b: seq<byte>)
    ensures 1 <= |b| <= 4
  {
    var n := c as int;
    if n < 0x80 then [n]
    else if n < 0x800 then [0xC0 + n / 64, 0x80 + n % 64]
    else if n < 0x1_0000 then [0xE0 + n / 4096, 0x80 + n / 64 % 64, 0x80 + n % 64]
    else [0xF0 + n / 262144, 0x80 + n / 4096 % 64, 0x80 + n / 64 % 64, 0x80 + n % 64]
  }

  /** One octet for ASCII, two up to U+07FF, three up to U+FFFF, four beyond; and four characters as RFC 3629 spells them. */
  lemma KnownEncodings(c: char)
    ensures |Encode1(c)| == (if c as int <= 0x7F then 1 else if c as int <= 0x7FF then 2 else if c as int <= 0xFFFF then 3 else 4)
    ensures Encode1('A') == [0x41] && Encode1('\U{E9}') == [0xC3, 0xA9]
    ensures Encode1('\U{20AC}') == [0xE2, 0x82, 0xAC] && Encode1('\U{1F600}') == [0xF0, 0x9F, 0x98, 0x80]
  {
  }

  /** `Buffer.from(s, "utf8")`. */
  function Encode(s: string): seq<byte> {
    if s == "" then [] else Encode1(s[0]) + Encode(s[1..])
  }

  /** `(b & 0xc0) === 0x80`: inside a character, not at its start. */
  predicate Continues(b: byte) {
    0x80 <= b < 0xC0
  }

  /** Only the first octet of a character does not continue one. */
  lemma Encode1Continues(c: char)
    ensures var b := Encode1(c);
            !Continues(b[0]) && forall i :: 1 <= i < |b| ==> Continues(b[i])
  {
  }

  lemma {:induction false} EncodeAppend(s: string, t: string)
    ensures Encode(s + t) == Encode(s) + Encode(t)
  {
    if s == "" {
      assert s + t == t;
    } else {
      assert (s + t)[1..] == s[1..] + t;
      EncodeAppend(s[1..], t);
    }
  }

  /** How many octets the character a lead octet starts has. */
  function LeadLength(b: byte): (n: nat)
    ensures 1 <= n <= 4
  {
    if b < 0xC0 then 1 else if b < 0xE0 then 2 else if b < 0xF0 then 3 else 4
  }

  const REPLACEMENT: char := '\U{FFFD}'

  function ToChar(n: int): char {
    if 0 <= n < 0xD800 || 0xE000 <= n < 0x11_0000 then n as char else REPLACEMENT
  }

  /** What an octet adds to its character, over the bits that mark its kind. */
  function Bits(b: byte, mark: int): int {
    b as int - mark
  }

  /** The character that `n` octets spell. */
  function Decode1(b: seq<byte>): char
    requires 1 <= |b| <= 4
  {
    if |b| == 1 then ToChar(b[0])
    else if |b| == 2 then ToChar(Bits(b[0], 0xC0) * 64 + Bits(b[1], 0x80))
    else if |b| == 3 then ToChar(Bits(b[0], 0xE0) * 4096 + Bits(b[1], 0x80) * 64 + Bits(b[2], 0x80))
    else ToChar(Bits(b[0], 0xF0) * 262144 + Bits(b[1], 0x80) * 4096 + Bits(b[2], 0x80) * 64 + Bits(b[3], 0x80))
  }

  /** `toString("utf8")`; octets that spell no character read as U+FFFD. */
  function Decode(b: seq<byte>): string {
    if b == [] then ""
    else
      var n := LeadLength(b[0]);
      if |b| < n then [REPLACEMENT]
      else [Decode1(b[..n])] + Decode(b[n..])
  }

  /** A number from its digits in base 64. */
  lemma Digits(n: nat)
    ensures n == n / 64 * 64 + n % 64
    ensures n == n / 4096 * 4096 + n / 64 % 64 * 64 + n % 64
    ensures n == n / 262144 * 262144 + n / 4096 % 64 * 4096 + n / 64 % 64 * 64 + n % 64
  {
    var q := n / 64;
    assert n / 4096 == q / 64;
    var r := n / 4096;
    assert n / 262144 == r / 64;
  }

  lemma Decode1RoundTrip(c: char)
    ensures LeadLength(Encode1(c)[0]) == |Encode1(c)|
    ensures Decode1(Encode1(c)) == c
  {
    Digits(c as int);
  }

  lemma {:induction false} DecodeRoundTrip(s: string)
    ensures Decode(Encode(s)) == s
  {
    hide Encode1, Decode1, LeadLength;
    if s != "" {
      var b, e := Encode(s), Encode1(s[0]);
      Decode1RoundTrip(s[0]);
      assert b[0] == e[0];
      assert b[..|e|] == e && b[|e|..] == Encode(s[1..]);
      DecodeRoundTrip(s[1..]);
      assert [s[0]] + s[1..] == s;
    }
  }

  /** Where character `k` of a text starts in its octets. */
  function Offset(s: string, k: nat): nat
    requires k <= |s|
  {
    |Encode(s[..k])|
  }

  lemma OffsetStep(s: string, k: nat)
    requires k < |s|
    ensures Offset(s, k + 1) == Offset(s, k) + |Encode1(s[k])|
    ensures Offset(s, k + 1) <= |Encode(s)|
    ensures Encode(s)[Offset(s, k)..Offset(s, k + 1)] == Encode1(s[k])
  {
    hide Encode1;
    assert s[..k + 1] == s[..k] + [s[k]];
    EncodeAppend(s[..k], [s[k]]);
    assert Encode([s[k]]) == Encode1(s[k]) by {
      assert [s[k]][1..] == "";
    }
    assert s == s[..k + 1] + s[k + 1..];
    EncodeAppend(s[..k + 1], s[k + 1..]);
  }

  /** An octet within a character continues it unless it is the first. */
  lemma WithinCharacter(s: string, k: nat, i: nat)
    requires k < |s| && Offset(s, k) <= i < Offset(s, k + 1)
    ensures i < |Encode(s)|
    ensures Continues(Encode(s)[i]) <==> Offset(s, k) < i
  {
    hide Encode1;
    OffsetStep(s, k);
    Encode1Continues(s[k]);
    var e := Encode(s)[Offset(s, k)..Offset(s, k + 1)];
    assert e[i - Offset(s, k)] == Encode(s)[i];
  }

  lemma OffsetSlice(s: string, a: nat, k: nat)
    requires a <= k <= |s|
    ensures Offset(s, a) <= Offset(s, k) <= |Encode(s)|
    ensures Encode(s)[Offset(s, a)..Offset(s, k)] == Encode(s[a..k])
    ensures Offset(s, k) == Offset(s, a) + |Encode(s[a..k])|
  {
    hide Encode1;
    assert s[..k] == s[..a] + s[a..k];
    EncodeAppend(s[..a], s[a..k]);
    assert s == s[..k] + s[k..];
    EncodeAppend(s[..k], s[k..]);
  }
}
