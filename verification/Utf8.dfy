/** Key encoding of the store: UTF-8, as in section 3 of RFC 3629. */
module Utf8 {
  import opened Outcomes

  /** Bytes are the integers 0 to 255. */
  type Bytes = seq<int>

  function EncodeChar(c: char): (b: Bytes)
    ensures 1 <= |b| <= 4
    ensures forall x :: x in b ==> 0 <= x <= 0xF4
  {
    var v := c as int;
    if v < 0x80 then [v]
    else if v < 0x800 then [0xC0 + v / 64, 0x80 + v % 64]
    else if v < 0x10000 then [0xE0 + v / 4096, 0x80 + v / 64 % 64, 0x80 + v % 64]
    else [0xF0 + v / 262144, 0x80 + v / 4096 % 64, 0x80 + v / 64 % 64, 0x80 + v % 64]
  }

  /** `_encode_key` */
  function Encode(s: string): Bytes {
    if s == "" then [] else EncodeChar(s[0]) + Encode(s[1..])
  }

  predicate IsScalar(v: int) {
    0 <= v < 0xD800 || 0xE000 <= v < 0x110000
  }

  /** The character at the front of `b` and its length in bytes. */
  function DecodeFirst(b: Bytes): Option<(char, nat)> {
    if |b| >= 1 && 0 <= b[0] < 0x80 then Scalar(b[0], 1)
    else if |b| >= 2 && 0xC0 <= b[0] < 0xE0 then Scalar((b[0] - 0xC0) * 64 + b[1] - 0x80, 2)
    else if |b| >= 3 && 0xE0 <= b[0] < 0xF0 then
      Scalar((b[0] - 0xE0) * 4096 + (b[1] - 0x80) * 64 + b[2] - 0x80, 3)
    else if |b| >= 4 && 0xF0 <= b[0] then
      Scalar((b[0] - 0xF0) * 262144 + (b[1] - 0x80) * 4096 + (b[2] - 0x80) * 64 + b[3] - 0x80, 4)
    else None
  }

  function Scalar(v: int, n: nat): Option<(char, nat)> {
    if IsScalar(v) then Some((v as char, n)) else None
  }

  /** `_decode_key` */
  function Decode(b: Bytes): Option<string> {
    if b == [] then Some("") else
      match DecodeFirst(b)
      case None => None
      case Some((c, n)) =>
        if n == 0 || n > |b| then None else
          match Decode(b[n..])
          case None => None
          case Some(rest) => Some([c] + rest)
  }

  lemma Digits(v: nat)
    ensures v == v / 64 * 64 + v % 64
    ensures v / 64 == v / 4096 * 64 + v / 64 % 64
    ensures v / 4096 == v / 262144 * 64 + v / 4096 % 64
  {
    DigitsOf(v);
    DigitsOf(v / 64);
    DigitsOf(v / 4096);
    assert v / 64 / 64 == v / 4096;
    assert v / 4096 / 64 == v / 262144;
  }

  lemma DigitsOf(v: nat)
    ensures v == v / 64 * 64 + v % 64
  {
  }

  lemma DecodeFirstOfEncode(c: char, rest: Bytes)
    ensures DecodeFirst(EncodeChar(c) + rest) == Some((c, |EncodeChar(c)|))
  {
    var v := c as int;
    var e := EncodeChar(c);
    var b := e + rest;
    Digits(v);
    assert forall i | 0 <= i < |e| :: b[i] == e[i];
    if v < 0x80 {
      assert DecodeFirst(b) == Scalar(v, 1);
    } else if v < 0x800 {
      assert b[0] == 0xC0 + v / 64 && b[1] == 0x80 + v % 64;
      assert DecodeFirst(b) == Scalar(v, 2);
    } else if v < 0x10000 {
      assert b[0] == 0xE0 + v / 4096 && b[1] == 0x80 + v / 64 % 64 && b[2] == 0x80 + v % 64;
      assert DecodeFirst(b) == Scalar(v, 3);
    } else {
      assert b[0] == 0xF0 + v / 262144 && b[1] == 0x80 + v / 4096 % 64;
      assert b[2] == 0x80 + v / 64 % 64 && b[3] == 0x80 + v % 64;
      assert DecodeFirst(b) == Scalar(v, 4);
    }
  }

  /** Decoding undoes encoding. */
  lemma {:induction false} DecodeEncode(s: string)
    ensures Decode(Encode(s)) == Some(s)
  {
    if s != "" {
      DecodeFirstOfEncode(s[0], Encode(s[1..]));
      DecodeEncode(s[1..]);
      hide DecodeFirst, EncodeChar;
      var b, n := Encode(s), |EncodeChar(s[0])|;
      assert b[n..] == Encode(s[1..]);
      assert [s[0]] + s[1..] == s;
    }
  }

  lemma EncodeInjective(s: string, t: string)
    requires Encode(s) == Encode(t)
    ensures s == t
  {
    DecodeEncode(s);
    DecodeEncode(t);
  }

  /** No byte of an encoding is 0xFF. */
  lemma {:induction false} NoByteFF(s: string)
    ensures forall x :: x in Encode(s) ==> 0 <= x < 0xFF
  {
    if s != "" {
      NoByteFF(s[1..]);
    }
  }

  /** Prefixes of encodings are encodings of prefixes. */
  lemma {:induction false} PrefixOfEncoding(p: string, s: string)
    ensures Encode(p) <= Encode(s) <==> p <= s
  {
    if p != "" {
      var c, rest := p[0], p[1..];
      var enc := EncodeChar(c);
      if s == "" {
        assert |Encode(p)| > 0;
      } else {
        var d, tail := s[0], s[1..];
        PrefixOfEncoding(rest, tail);
        if c == d {
          PrefixOfSum(enc, Encode(rest), Encode(tail));
          assert p <= s <==> rest <= tail;
        } else if Encode(p) <= Encode(s) {
          var suffix := Encode(s)[|Encode(p)|..];
          assert Encode(s) == enc + (Encode(rest) + suffix);
          DecodeFirstOfEncode(c, Encode(rest) + suffix);
          DecodeFirstOfEncode(d, Encode(tail));
        }
      }
    }
  }

  lemma PrefixOfSum(a: Bytes, b: Bytes, c: Bytes)
    ensures a + b <= a + c <==> b <= c
  {
    if a + b <= a + c {
      forall i | 0 <= i < |b| ensures b[i] == c[i] {
        assert (a + b)[|a| + i] == (a + c)[|a| + i];
      }
    }
  }

  // ------------------------------------------------------------------
  // The byte order of the store
  // ------------------------------------------------------------------

  predicate LexLess(a: Bytes, b: Bytes) {
    if b == [] then false
    else if a == [] then true
    else a[0] < b[0] || (a[0] == b[0] && LexLess(a[1..], b[1..]))
  }

  const EIGHT_FF: Bytes := [0xFF, 0xFF, 0xFF, 0xFF, 0xFF, 0xFF, 0xFF, 0xFF]

  predicate InRange(lo: Bytes, hi: Bytes, k: Bytes) {
    !LexLess(k, lo) && LexLess(k, hi)
  }

  /** Among keys without the byte 0xFF the range from `p` to `p` followed by eight 0xFF is exactly the
      keys that start with `p`. */
  lemma {:induction false} RangeIsPrefix(p: Bytes, k: Bytes)
    requires forall x :: x in k ==> 0 <= x < 0xFF
    ensures InRange(p, p + EIGHT_FF, k) <==> p <= k
  {
    if p == [] {
      assert p + EIGHT_FF == EIGHT_FF;
      assert k != [] ==> k[0] in k;
    } else if k != [] {
      assert (p + EIGHT_FF)[1..] == p[1..] + EIGHT_FF;
      assert forall x :: x in k[1..] ==> x in k;
      RangeIsPrefix(p[1..], k[1..]);
      assert p <= k <==> p[0] == k[0] && p[1..] <= k[1..];
    }
  }
}
