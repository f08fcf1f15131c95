/** `bytes.fromhex`, the decoder applied to the generated audio, and `bytes.hex` as its inverse. */
module Hex {
  import opened Wrappers
  import opened Bytes

  /** The ASCII whitespace `bytes.fromhex` skips between digit pairs. */
  predicate IsAsciiSpace(c: char) {
    c == ' ' || '\t' <= c <= '\r'
  }

  predicate IsHexDigit(c: char) {
    '0' <= c <= '9' || 'a' <= c <= 'f' || 'A' <= c <= 'F'
  }

  function DigitValue(c: char): (v: nat)
    requires IsHexDigit(c)
    ensures v < 16
  {
    if '0' <= c <= '9' then c as int - '0' as int
    else if 'a' <= c <= 'f' then c as int - 'a' as int + 10
    else c as int - 'A' as int + 10
  }

  /** The lower-case digit for `v`, as `bytes.hex` writes it. */
  function Digit(v: nat): (c: char)
    requires v < 16
    ensures IsHexDigit(c) && DigitValue(c) == v
  {
    if v < 10 then ('0' as int + v) as char else ('a' as int + v - 10) as char
  }

  /**
    `bytes.fromhex(s)`; None stands for the ValueError it raises. Whitespace
    is skipped only before a pair: a pair itself must be two hex digits.
   */
  function FromHex(s: string): (r: Option<seq<byte>>)
    ensures r.Some? ==> 2 * |r.value| <= |s|
  {
    if s == [] then Some([])
    else if IsAsciiSpace(s[0]) then FromHex(s[1..])
    else if |s| < 2 || !IsHexDigit(s[0]) || !IsHexDigit(s[1]) then None
    else
      match FromHex(s[2..])
      case None => None
      case Some(rest) => Some([DigitValue(s[0]) * 16 + DigitValue(s[1])] + rest)
  }

  /** `b.hex()`. */
  function ToHex(b: seq<byte>): (s: string)
    ensures |s| == 2 * |b|
    ensures forall i :: 0 <= i < |s| ==> IsHexDigit(s[i])
  {
    if b == [] then [] else [Digit(b[0] / 16), Digit(b[0] % 16)] + ToHex(b[1..])
  }

  /** Decoding what `hex` wrote gives back the bytes. */
  lemma {:induction false} FromHexOfToHex(b: seq<byte>)
    ensures FromHex(ToHex(b)) == Some(b)
  {
    if b != [] {
      var s := ToHex(b);
      assert s[2..] == ToHex(b[1..]);
      FromHexOfToHex(b[1..]);
      assert [b[0]] + b[1..] == b;
    }
  }

  predicate HexDigitsOnly(s: string) {
    forall i :: 0 <= i < |s| ==> IsHexDigit(s[i])
  }

  /**
    Without whitespace, `fromhex` succeeds exactly on an even number of hex
    digits and then yields half as many bytes; an odd length always raises.
   */
  lemma {:induction false} FromHexWithoutSpaces(s: string)
    requires forall i :: 0 <= i < |s| ==> !IsAsciiSpace(s[i])
    ensures FromHex(s).Some? <==> |s| % 2 == 0 && HexDigitsOnly(s)
    ensures FromHex(s).Some? ==> |FromHex(s).value| == |s| / 2
  {
    if s != [] {
      assert !IsAsciiSpace(s[0]);
      if |s| >= 2 {
        FromHexWithoutSpaces(s[2..]);
        if IsHexDigit(s[0]) && IsHexDigit(s[1]) && HexDigitsOnly(s[2..]) {
          assert HexDigitsOnly(s) by {
            forall i | 0 <= i < |s| ensures IsHexDigit(s[i]) {
              if i >= 2 { assert s[i] == s[2..][i - 2]; }
            }
          }
        }
      }
    }
  }

  /** ASCII whitespace after any number of well-formed pairs does not change what is decoded. */
  lemma {:induction false} FromHexSkipsSpace(b: seq<byte>, c: char, s: string)
    requires IsAsciiSpace(c)
    ensures FromHex(ToHex(b) + [c] + s) == FromHex(ToHex(b) + s)
  {
    if b == [] {
      assert ToHex(b) + [c] + s == [c] + s;
      assert ([c] + s)[1..] == s;
      assert ToHex(b) + s == s;
    } else {
      var t := ToHex(b);
      var pair := [Digit(b[0] / 16), Digit(b[0] % 16)];
      assert t == pair + ToHex(b[1..]);
      assert (t + [c] + s)[2..] == ToHex(b[1..]) + [c] + s;
      assert (t + s)[2..] == ToHex(b[1..]) + s;
      assert (t + [c] + s)[..2] == pair == (t + s)[..2];
      FromHexSkipsSpace(b[1..], c, s);
    }
  }
}
