// Encoded sizes of text.

/** Byte lengths of text in UTF-8, and cutting text to a byte bound. */
module Utf8 {

  function Width(c: char): (w: nat)
    ensures 1 <= w <= 4
  {
    var code := c as int;
    if code < 0x80 then 1 else if code < 0x800 then 2 else if code < 0x10000 then 3 else 4
  }

  function Size(s: string): (n: nat)
    ensures n >= |s|
    ensures n == 0 <==> s == ""
  {
    if s == "" then 0 else Width(s[0]) + Size(s[1..])
  }

  /** The first `n` bytes of `s`, without a cut character at the end. */
  function Cut(s: string, n: int): (r: string)
    ensures r <= s && Size(r) <= (if n < 0 then 0 else n)
    ensures Size(s) <= n ==> r == s
  {
    if s == "" || Width(s[0]) > n then "" else
    var rest := Cut(s[1..], n - Width(s[0]));
    assert rest <= s[1..];
    [s[0]] + rest
  }

  /** One character more would not fit. */
  lemma {:induction false} CutIsLongest(s: string, n: nat)
    requires Cut(s, n) != s
    ensures |Cut(s, n)| < |s| && Size(s[..|Cut(s, n)| + 1]) > n
    decreases |s|
  {
    if Width(s[0]) <= n {
      var rest := s[1..];
      CutIsLongest(rest, n - Width(s[0]));
      var m := |Cut(rest, n - Width(s[0]))|;
      assert s[..m + 2][1..] == rest[..m + 1];
    } else {
      assert s[..1][1..] == "";
    }
  }

  // ---- The bytes --------------------------------------------------------------

  function EncodeChar(c: char): (b: seq<nat>)
    ensures |b| == Width(c)
  {
    var code := c as nat;
    match Width(c)
    case 1 => [code]
    case 2 => [0xC0 + code / 0x40, 0x80 + code % 0x40]
    case 3 => [0xE0 + code / 0x1000, 0x80 + code / 0x40 % 0x40, 0x80 + code % 0x40]
    case _ => [0xF0 + code / 0x40000, 0x80 + code / 0x1000 % 0x40, 0x80 + code / 0x40 % 0x40, 0x80 + code % 0x40]
  }

  function Encode(s: string): (b: seq<nat>)
    ensures |b| == Size(s)
  {
    if s == "" then [] else EncodeChar(s[0]) + Encode(s[1..])
  }

  predicate IsContinuation(b: nat) {
    0x80 <= b < 0xC0
  }

  /** The code point of a well-formed sequence of one to four bytes: the bits after the
      markers of the leading and the continuing bytes. */
  function CodePoint(b: seq<nat>): nat
    requires IsSequence(b)
  {
    match |b|
    case 1 => b[0]
    case 2 => (b[0] - 0xC0) * 0x40 + (b[1] - 0x80)
    case 3 => (b[0] - 0xE0) * 0x1000 + (b[1] - 0x80) * 0x40 + (b[2] - 0x80)
    case _ => (b[0] - 0xF0) * 0x40000 + (b[1] - 0x80) * 0x1000 + (b[2] - 0x80) * 0x40 + (b[3] - 0x80)
  }

  predicate IsSequence(b: seq<nat>) {
    && 1 <= |b| <= 4 && (forall k :: 1 <= k < |b| ==> IsContinuation(b[k]))
    && (match |b|
        case 1 => b[0] < 0x80
        case 2 => 0xC0 <= b[0] < 0xE0
        case 3 => 0xE0 <= b[0] < 0xF0
        case _ => 0xF0 <= b[0] < 0xF8)
  }

  /** The bytes of a character are well formed, spell its code point, and are as few as can
      spell it. */
  lemma CharIsSpelled(c: char)
    ensures IsSequence(EncodeChar(c)) && CodePoint(EncodeChar(c)) == c as nat
    ensures forall b :: IsSequence(b) && CodePoint(b) == c as nat ==> |EncodeChar(c)| <= |b|
  {
    var code := c as nat;
    SplitBits(code);
    forall b | IsSequence(b) && CodePoint(b) == code
      ensures |EncodeChar(c)| <= |b|
    {
    }
  }

  /** A number from its groups of six bits. */
  lemma SplitBits(n: nat)
    ensures n == n / 0x40 * 0x40 + n % 0x40
    ensures n == n / 0x1000 * 0x1000 + n / 0x40 % 0x40 * 0x40 + n % 0x40
    ensures n == n / 0x40000 * 0x40000 + n / 0x1000 % 0x40 * 0x1000 + n / 0x40 % 0x40 * 0x40 + n % 0x40
  {
    assert n / 0x1000 == n / 0x40 / 0x40 && n / 0x40000 == n / 0x1000 / 0x40;
  }

  lemma {:induction false} EncodeAppend(a: string, b: string)
    ensures Encode(a + b) == Encode(a) + Encode(b)
  {
    if a == "" {
      assert a + b == b;
    } else {
      assert (a + b)[1..] == a[1..] + b;
      EncodeAppend(a[1..], b);
    }
  }
}
