/**
 * `str::encode_utf16`: each character becomes one 16-bit unit, or a
 * surrogate pair when it lies above U+FFFF. Decoding is the partner that
 * shows no information is lost.
 */
module Utf16 {
  import opened Ints
  import opened Wrappers

  const SURROGATE_BASE: int := 0x1_0000
  const HIGH_SURROGATE: int := 0xD800
  const LOW_SURROGATE: int := 0xDC00
  const SURROGATE_END: int := 0xE000

  function EncodeChar(c: char): (units: seq<u16>)
    ensures 1 <= |units| <= 2
  {
    var n := c as int;
    if n < SURROGATE_BASE then [n]
    else
      var m := n - SURROGATE_BASE;
      [HIGH_SURROGATE + m / 0x400, LOW_SURROGATE + m % 0x400]
  }

  function Encode(s: string): seq<u16>
  {
    if s == [] then [] else EncodeChar(s[0]) + Encode(s[1..])
  }

  /** Reads UTF-16 back into characters; `None` for an unpaired surrogate. */
  function Decode(units: seq<u16>): Option<string>
    decreases |units|
  {
    if units == [] then Some([])
    else
      var u := units[0];
      if u < HIGH_SURROGATE || SURROGATE_END <= u then
        match Decode(units[1..])
        case None => None
        case Some(rest) => Some([u as char] + rest)
      else if u < LOW_SURROGATE && |units| >= 2 && LOW_SURROGATE <= units[1] < SURROGATE_END then
        var n := SURROGATE_BASE + (u - HIGH_SURROGATE) * 0x400 + (units[1] - LOW_SURROGATE);
        match Decode(units[2..])
        case None => None
        case Some(rest) => Some([n as char] + rest)
      else None
  }

  lemma {:induction false} DecodeEncode(s: string)
    ensures Decode(Encode(s)) == Some(s)
  {
    if s != [] {
      var head := EncodeChar(s[0]);
      var units := head + Encode(s[1..]);
      DecodeEncode(s[1..]);
      assert Encode(s) == units;
      assert [s[0]] + s[1..] == s;
      if |head| == 1 {
        assert units[0] == s[0] as int && (s[0] as int) as char == s[0];
        assert !(HIGH_SURROGATE <= s[0] as int < SURROGATE_END);
        assert units[1..] == Encode(s[1..]);
      } else {
        var m := (s[0] as int) - SURROGATE_BASE;
        assert units[0] == HIGH_SURROGATE + m / 0x400 && units[1] == LOW_SURROGATE + m % 0x400;
        assert SURROGATE_BASE + (m / 0x400) * 0x400 + m % 0x400 == s[0] as int;
        assert units[2..] == Encode(s[1..]);
      }
    }
  }

  /** Only the NUL character encodes to a 0 unit. */
  lemma {:induction false} EncodeZero(s: string)
    ensures 0 in Encode(s) <==> '\0' in s
  {
    if s != [] {
      EncodeZero(s[1..]);
      assert 0 in EncodeChar(s[0]) <==> s[0] == '\0';
      assert s == [s[0]] + s[1..];
    }
  }
}
