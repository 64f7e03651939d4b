/**
 * Hexadecimal decoding as done by Python's `bytes.fromhex`, and the dotted
 * physical-address format ("1.0.0.0") that the adapter decodes with it.
 *
 * `bytes.fromhex` reads the text two digits at a time; ASCII whitespace is
 * skipped, but only in front of a digit pair, never between its two digits.
 * Any other character, or a lone trailing digit, is an error.
 */
module Hex {
  import opened Wrappers
  import opened PyValues

  /** The characters Python treats as ASCII whitespace. */
  predicate IsSpace(c: char) {
    c == ' ' || c == '\t' || c == '\n' || c == '\r' || c == '\U{000B}' || c == '\U{000C}'
  }

  predicate IsHexDigit(c: char) {
    ('0' <= c <= '9') || ('a' <= c <= 'f') || ('A' <= c <= 'F')
  }

  function DigitValue(c: char): (v: int)
    requires IsHexDigit(c)
    ensures 0 <= v < 16
  {
    if '0' <= c <= '9' then c as int - '0' as int
    else if 'a' <= c <= 'f' then c as int - 'a' as int + 10
    else c as int - 'A' as int + 10
  }

  predicate AllHexDigits(s: string) {
    forall i :: 0 <= i < |s| ==> IsHexDigit(s[i])
  }

  /** `bytes.fromhex(s)`: None where Python raises ValueError. */
  function FromHex(s: string): (r: Option<seq<byte>>)
    // a character that is neither a digit nor whitespace always fails
    ensures (exists i :: 0 <= i < |s| && !IsHexDigit(s[i]) && !IsSpace(s[i])) ==> r.None?
    decreases |s|
  {
    if |s| == 0 then Some([])
    else if IsSpace(s[0]) then FromHex(s[1..])
    else if |s| >= 2 && IsHexDigit(s[0]) && IsHexDigit(s[1]) then
      match FromHex(s[2..])
      case Some(rest) => Some([16 * DigitValue(s[0]) + DigitValue(s[1])] + rest)
      case None => None
    else None
  }

  /**
   * Text made only of digits decodes exactly when it has an even length, into
   * one byte per digit pair, high nibble first.
   */
  lemma {:induction false} FromHexDigits(s: string)
    requires AllHexDigits(s)
    ensures FromHex(s).Some? <==> |s| % 2 == 0
    ensures FromHex(s).Some? ==>
              |FromHex(s).value| * 2 == |s| &&
              forall k :: 0 <= k < |FromHex(s).value| ==>
                FromHex(s).value[k] == 16 * DigitValue(s[2 * k]) + DigitValue(s[2 * k + 1])
    decreases |s|
  {
    if |s| >= 2 {
      var t := s[2..];
      assert AllHexDigits(t) by {
        forall i | 0 <= i < |t| ensures IsHexDigit(t[i]) { assert t[i] == s[i + 2]; }
      }
      FromHexDigits(t);
      if FromHex(t).Some? {
        var r := FromHex(s).value;
        var rest := FromHex(t).value;
        assert r == [16 * DigitValue(s[0]) + DigitValue(s[1])] + rest;
        forall k | 1 <= k < |r|
          ensures r[k] == 16 * DigitValue(s[2 * k]) + DigitValue(s[2 * k + 1])
        {
          assert r[k] == rest[k - 1];
          assert t[2 * (k - 1)] == s[2 * k] && t[2 * (k - 1) + 1] == s[2 * k + 1];
        }
      }
    }
  }

  function HexChar(n: int): (c: char)
    requires 0 <= n < 16
    ensures IsHexDigit(c) && DigitValue(c) == n
  {
    if n < 10 then ('0' as int + n) as char else ('a' as int + n - 10) as char
  }

  /** `bytes.hex()`: two lower-case digits per byte. */
  function ToHex(bs: seq<byte>): (s: string)
    ensures |s| == 2 * |bs|
    ensures AllHexDigits(s)
  {
    if |bs| == 0 then "" else [HexChar(bs[0] / 16), HexChar(bs[0] % 16)] + ToHex(bs[1..])
  }

  /** Decoding undoes encoding. */
  lemma {:induction false} FromHexToHex(bs: seq<byte>)
    ensures FromHex(ToHex(bs)) == Some(bs)
  {
    if |bs| > 0 {
      var b := bs[0];
      var hi, lo := HexChar(b / 16), HexChar(b % 16);
      assert 16 * DigitValue(hi) + DigitValue(lo) == b by {
        assert DigitValue(hi) == b / 16 && DigitValue(lo) == b % 16;
      }
      var t := ToHex(bs[1..]);
      assert ToHex(bs) == [hi, lo] + t;
      FromHexToHex(bs[1..]);
      FromHexPair(hi, lo, t);
      assert bs == [b] + bs[1..];
    }
  }

  /** One step of decoding: a leading digit pair becomes one byte in front of the rest. */
  lemma FromHexPair(hi: char, lo: char, t: string)
    requires IsHexDigit(hi) && IsHexDigit(lo)
    ensures FromHex([hi, lo] + t) ==
              match FromHex(t)
              case Some(rest) => Some([16 * DigitValue(hi) + DigitValue(lo)] + rest)
              case None => None
  {
    var s := [hi, lo] + t;
    assert s[0] == hi && s[1] == lo && s[2..] == t;
  }

  /** `s.replace(".", "")`. */
  function StripDots(s: string): (r: string)
    ensures '.' !in r
    ensures |r| <= |s|
  {
    if |s| == 0 then ""
    else if s[0] == '.' then StripDots(s[1..])
    else [s[0]] + StripDots(s[1..])
  }

  /** The two bytes the adapter derives from a dotted physical address, or None when undecodable. */
  function PhysicalAddressBytes(address: string): Option<seq<byte>> {
    FromHex(StripDots(address))
  }

  /** Stripping works piecewise: the kept characters stay in their order. */
  lemma {:induction false} StripDotsAppend(s: string, t: string)
    ensures StripDots(s + t) == StripDots(s) + StripDots(t)
  {
    if |s| > 0 {
      assert (s + t)[0] == s[0];
      assert (s + t)[1..] == s[1..] + t;
      StripDotsAppend(s[1..], t);
    } else {
      assert s + t == t;
    }
  }

  /** Text without a dot is left as it is. */
  lemma {:induction false} StripDotsNoDot(s: string)
    requires '.' !in s
    ensures StripDots(s) == s
  {
    if |s| > 0 {
      assert s[0] != '.';
      assert forall i :: 0 <= i < |s[1..]| ==> s[1..][i] == s[i + 1];
      StripDotsNoDot(s[1..]);
      assert s == [s[0]] + s[1..];
    }
  }

  /** Exactly the dots go: every other character keeps its number of occurrences. */
  lemma {:induction false} StripDotsKeepsOthers(s: string)
    ensures multiset(StripDots(s)) == multiset(s)['.' := 0]
  {
    if |s| > 0 {
      StripDotsKeepsOthers(s[1..]);
      assert s == [s[0]] + s[1..];
    }
  }

  lemma StripDotsCons(c: char, t: string)
    ensures c == '.' ==> StripDots([c] + t) == StripDots(t)
    ensures c != '.' ==> StripDots([c] + t) == [c] + StripDots(t)
  {
    assert ([c] + t)[1..] == t;
  }

  /**
   * A well-formed dotted address "a.b.c.d" of four hex nibbles decodes to the two
   * bytes (a b) and (c d) of the 16-bit physical address.
   */
  lemma DottedAddressBytes(a: char, b: char, c: char, d: char)
    requires IsHexDigit(a) && IsHexDigit(b) && IsHexDigit(c) && IsHexDigit(d)
    ensures PhysicalAddressBytes([a, '.', b, '.', c, '.', d]) ==
              Some([16 * DigitValue(a) + DigitValue(b), 16 * DigitValue(c) + DigitValue(d)])
  {
    StripFourNibbles(a, b, c, d);
    DecodeFourDigits(a, b, c, d);
  }

  lemma StripFourNibbles(a: char, b: char, c: char, d: char)
    requires a != '.' && b != '.' && c != '.' && d != '.'
    ensures StripDots([a, '.', b, '.', c, '.', d]) == [a, b, c, d]
  {
    StripDotsCons(d, []);
    StripDotsCons('.', [d]);
    StripDotsCons(c, ['.', d]);
    StripDotsCons('.', [c, '.', d]);
    StripDotsCons(b, ['.', c, '.', d]);
    StripDotsCons('.', [b, '.', c, '.', d]);
    StripDotsCons(a, ['.', b, '.', c, '.', d]);
  }

  lemma DecodeFourDigits(a: char, b: char, c: char, d: char)
    requires IsHexDigit(a) && IsHexDigit(b) && IsHexDigit(c) && IsHexDigit(d)
    ensures FromHex([a, b, c, d]) ==
              Some([16 * DigitValue(a) + DigitValue(b), 16 * DigitValue(c) + DigitValue(d)])
  {
    var s := [a, b, c, d];
    assert AllHexDigits(s);
    FromHexDigits(s);
    var r := FromHex(s).value;
    assert |r| == 2 && r[0] == 16 * DigitValue(s[0]) + DigitValue(s[1]);
    assert r[1] == 16 * DigitValue(s[2]) + DigitValue(s[3]);
    assert r == [16 * DigitValue(a) + DigitValue(b), 16 * DigitValue(c) + DigitValue(d)];
  }

  /** The default address "1.0.0.0" becomes the parameter bytes 0x10 0x00. */
  lemma DefaultAddressBytes()
    ensures PhysicalAddressBytes("1.0.0.0") == Some([0x10, 0x00])
  {
    DottedAddressBytes('1', '0', '0', '0');
  }
}
