/** UTF-8 as Go's `unicode/utf8` package accepts it (RFC 3629: shortest
    forms only, no surrogates, nothing above U+10FFFF). Go strings are byte
    sequences; this module relates them to the code points `range` yields. */
module Utf8 {

  newtype byte = x: int | 0 <= x < 256

  /** A continuation byte `10xxxxxx`. */
  predicate IsCont(b: byte)
  {
    0x80 <= b <= 0xBF
  }

  /** The length of the well-formed encoded code point at the start of `s`,
      or 0 when `s` does not start with one. */
  function FirstLength(s: seq<byte>): (n: nat)
    ensures n <= 4 && n <= |s|
    ensures n > 0 ==> |s| > 0
    ensures n == 1 <==> |s| > 0 && s[0] < 0x80
  {
    if |s| == 0 then 0
    else if s[0] < 0x80 then 1
    else if 0xC2 <= s[0] <= 0xDF then
      if |s| >= 2 && IsCont(s[1]) then 2 else 0
    else if 0xE0 <= s[0] <= 0xEF then
      var lo: byte := if s[0] == 0xE0 then 0xA0 else 0x80;
      var hi: byte := if s[0] == 0xED then 0x9F else 0xBF;
      if |s| >= 3 && lo <= s[1] <= hi && IsCont(s[2]) then 3 else 0
    else if 0xF0 <= s[0] <= 0xF4 then
      var lo: byte := if s[0] == 0xF0 then 0x90 else 0x80;
      var hi: byte := if s[0] == 0xF4 then 0x8F else 0xBF;
      if |s| >= 4 && lo <= s[1] <= hi && IsCont(s[2]) && IsCont(s[3]) then 4 else 0
    else 0
  }

  /** Every byte after the first of a multi-byte sequence is `>= 0x80`. */
  lemma FirstLengthHighBytes(s: seq<byte>, k: nat)
    requires 0 < k < FirstLength(s)
    ensures s[k] >= 0x80 && s[0] >= 0x80
  {
  }

  /** `utf8.ValidString`: the bytes split into well-formed sequences. */
  predicate Valid(s: seq<byte>)
    decreases |s|
  {
    |s| == 0 || (FirstLength(s) > 0 && Valid(s[FirstLength(s)..]))
  }

  /** The code point encoded at the start of `s`. */
  function FirstRune(s: seq<byte>): (c: int)
    requires FirstLength(s) > 0
    ensures 0 <= c < 0x11_0000 && !(0xD800 <= c < 0xE000)
    ensures FirstLength(s) == 1 <==> c < 0x80
  {
    var n := FirstLength(s);
    if n == 1 then s[0] as int
    else if n == 2 then (s[0] as int - 0xC0) * 64 + (s[1] as int - 0x80)
    else if n == 3 then
      ((s[0] as int - 0xE0) * 64 + (s[1] as int - 0x80)) * 64 + (s[2] as int - 0x80)
    else
      (((s[0] as int - 0xF0) * 64 + (s[1] as int - 0x80)) * 64 + (s[2] as int - 0x80)) * 64
        + (s[3] as int - 0x80)
  }

  /** The UTF-8 encoding of one code point. */
  function EncodeRune(c: char): (r: seq<byte>)
    ensures 1 <= |r| <= 4 && FirstLength(r) == |r|
  {
    var v := c as int;
    if v < 0x80 then [v as byte]
    else if v < 0x800 then [(0xC0 + v / 64) as byte, (0x80 + v % 64) as byte]
    else if v < 0x1_0000 then
      [(0xE0 + v / 4096) as byte, (0x80 + (v / 64) % 64) as byte, (0x80 + v % 64) as byte]
    else
      [(0xF0 + v / 262144) as byte, (0x80 + (v / 4096) % 64) as byte,
       (0x80 + (v / 64) % 64) as byte, (0x80 + v % 64) as byte]
  }

  /** The encoding of one code point decodes back to it. */
  lemma EncodeRuneDecodes(c: char)
    ensures FirstRune(EncodeRune(c)) == c as int
  {
    var v := c as int;
    var e := EncodeRune(c);
    var q := v / 64;
    assert v == q * 64 + v % 64;
    if 0x800 <= v {
      assert q == (q / 64) * 64 + q % 64;
      assert q % 64 == (v / 64) % 64;
      if v < 0x1_0000 {
        assert q / 64 == v / 4096;
        assert FirstRune(e) == ((v / 4096) * 64 + (v / 64) % 64) * 64 + v % 64;
      } else {
        var q2 := q / 64;
        assert q2 == v / 4096;
        assert q2 == (q2 / 64) * 64 + q2 % 64;
        assert q2 / 64 == v / 262144;
        assert FirstRune(e) == (((v / 262144) * 64 + (v / 4096) % 64) * 64 + (v / 64) % 64) * 64 + v % 64;
      }
    }
  }

  /** The UTF-8 encoding of a string (Go's `[]byte(s)` for valid text). */
  function Encode(s: string): seq<byte>
  {
    if |s| == 0 then [] else EncodeRune(s[0]) + Encode(s[1..])
  }

  /** The first sequence of `a + b` is that of `a` when `a` is one sequence. */
  lemma FirstLengthPrefix(a: seq<byte>, b: seq<byte>)
    requires FirstLength(a) == |a| > 0
    ensures FirstLength(a + b) == |a|
    ensures FirstRune(a + b) == FirstRune(a)
  {
    assert forall k :: 0 <= k < |a| ==> (a + b)[k] == a[k];
  }

  /** Encoded text is always valid UTF-8. */
  lemma {:induction false} EncodeValid(s: string)
    ensures Valid(Encode(s))
  {
    if |s| > 0 {
      var e := EncodeRune(s[0]);
      EncodeValid(s[1..]);
      FirstLengthPrefix(e, Encode(s[1..]));
      assert (e + Encode(s[1..]))[|e|..] == Encode(s[1..]);
    }
  }

  /** The code points of valid UTF-8, as `for _, r := range s` yields them. */
  function Decode(s: seq<byte>): (r: string)
    requires Valid(s)
    decreases |s|
  {
    if |s| == 0 then []
    else [FirstRune(s) as char] + Decode(s[FirstLength(s)..])
  }

  /** Decoding undoes encoding. */
  lemma {:induction false} DecodeEncode(s: string)
    ensures Valid(Encode(s)) && Decode(Encode(s)) == s
  {
    EncodeValid(s);
    if |s| > 0 {
      var e := EncodeRune(s[0]);
      DecodeEncode(s[1..]);
      FirstLengthPrefix(e, Encode(s[1..]));
      EncodeRuneDecodes(s[0]);
      assert (e + Encode(s[1..]))[|e|..] == Encode(s[1..]);
      assert s == [s[0]] + s[1..];
    }
  }
}
