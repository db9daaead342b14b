/** UTF-8 as section 3 of RFC 3629 defines it, and that decoding is exactly its inverse. */
module Utf8Spelling {
  import opened Basics
  import opened Utf8

  /** The bytes of one code point. */
  function Spelled(c: char): seq<byte>
  {
    var p := c as int;
    if p < 0x80 then [p]
    else if p < 0x800 then [0xC0 + p / 0x40, 0x80 + p % 0x40]
    else if p < 0x1_0000 then [0xE0 + p / 0x40 / 0x40, 0x80 + p / 0x40 % 0x40, 0x80 + p % 0x40]
    else [0xF0 + p / 0x40 / 0x40 / 0x40, 0x80 + p / 0x40 / 0x40 % 0x40, 0x80 + p / 0x40 % 0x40, 0x80 + p % 0x40]
  }

  function AllSpelled(s: string): seq<byte>
  {
    if s == "" then [] else Spelled(s[0]) + AllSpelled(s[1..])
  }

  lemma TwoBytes(a: nat, b: nat)
    requires 2 <= a < 0x20 && b < 0x40
    ensures var s := [0xC0 + a, 0x80 + b]; Width(s[0]) == 2 && CodePoint(s) == a * 0x40 + b
  {
  }

  lemma ThreeBytes(a: nat, b: nat, c: nat)
    requires a < 0x10 && b < 0x40 && c < 0x40
    ensures var s := [0xE0 + a, 0x80 + b, 0x80 + c]; Width(s[0]) == 3 && CodePoint(s) == a * 0x1000 + b * 0x40 + c
  {
  }

  lemma FourBytes(a: nat, b: nat, c: nat, d: nat)
    requires a < 0x08 && b < 0x40 && c < 0x40 && d < 0x40
    ensures var s := [0xF0 + a, 0x80 + b, 0x80 + c, 0x80 + d];
            Width(s[0]) == 4 && CodePoint(s) == a * 0x40000 + b * 0x1000 + c * 0x40 + d
  {
  }

  lemma CharOfTwo(c: char)
    requires 0x80 <= c as int < 0x800
    ensures var s := Spelled(c); Width(s[0]) == |s| && Char(s) == Some(c)
  {
    TwoBytes(c as int / 0x40, c as int % 0x40);
  }

  lemma CharOfThree(c: char)
    requires 0x800 <= c as int < 0x1_0000
    ensures var s := Spelled(c); Width(s[0]) == |s| && Char(s) == Some(c)
  {
    var p := c as int;
    var q := p / 0x40;
    ThreeBytes(q / 0x40, q % 0x40, p % 0x40);
    IsScalar(c, 3, Spelled(c));
  }

  /** Bytes that spell the code point of a character spell that character. */
  lemma IsScalar(c: char, width: nat, s: seq<byte>)
    requires |s| == width && s != [] && Width(s[0]) == width && CodePoint(s) == c as int && Scalar(c as int, width)
    requires forall i | 0 < i < |s| :: 0x80 <= s[i] < 0xC0
    ensures Char(s) == Some(c)
  {
  }

  lemma CharOfFour(c: char)
    requires 0x1_0000 <= c as int
    ensures var s := Spelled(c); Width(s[0]) == |s| && Char(s) == Some(c)
  {
    var p := c as int;
    var q := p / 0x40;
    var r := q / 0x40;
    FourBytes(r / 0x40, r % 0x40, q % 0x40, p % 0x40);
    IsScalar(c, 4, Spelled(c));
  }

  lemma CharOfSpelled(c: char)
    ensures var s := Spelled(c); Width(s[0]) == |s| && Char(s) == Some(c)
  {
    if c as int < 0x80 {
      CharOfAscii(c);
    } else if c as int < 0x800 {
      CharOfTwo(c);
    } else if c as int < 0x1_0000 {
      CharOfThree(c);
    } else {
      CharOfFour(c);
    }
  }

  lemma SpelledOfTwo(s: seq<byte>)
    requires |s| == 2 && Width(s[0]) == 2 && Char(s).Some?
    ensures s == Spelled(Char(s).value)
  {
    var a, b := s[0] - 0xC0, s[1] - 0x80;
    TwoBytes(a, b);
    assert s == [0xC0 + a, 0x80 + b];
  }

  lemma Digit(q: nat, d: nat)
    requires d < 0x40
    ensures (q * 0x40 + d) / 0x40 == q && (q * 0x40 + d) % 0x40 == d
  {
  }

  lemma SpelledOfThree(s: seq<byte>)
    requires |s| == 3 && Width(s[0]) == 3 && Char(s).Some?
    ensures s == Spelled(Char(s).value)
  {
    var a, b, c := s[0] - 0xE0, s[1] - 0x80, s[2] - 0x80;
    ThreeBytes(a, b, c);
    assert s == [0xE0 + a, 0x80 + b, 0x80 + c];
    ThreeDigits(a, b, c);
  }

  lemma ThreeDigits(a: nat, b: nat, c: nat)
    requires b < 0x40 && c < 0x40
    ensures var p := a * 0x1000 + b * 0x40 + c; p / 0x40 / 0x40 == a && p / 0x40 % 0x40 == b && p % 0x40 == c
  {
    Digit(a * 0x40 + b, c);
    Digit(a, b);
  }

  lemma SpelledOfFour(s: seq<byte>)
    requires |s| == 4 && Width(s[0]) == 4 && Char(s).Some?
    ensures s == Spelled(Char(s).value)
  {
    var a, b, c, d := s[0] - 0xF0, s[1] - 0x80, s[2] - 0x80, s[3] - 0x80;
    FourBytes(a, b, c, d);
    assert s == [0xF0 + a, 0x80 + b, 0x80 + c, 0x80 + d];
    FourDigits(a, b, c, d);
  }

  lemma FourDigits(a: nat, b: nat, c: nat, d: nat)
    requires b < 0x40 && c < 0x40 && d < 0x40
    ensures var p := a * 0x40000 + b * 0x1000 + c * 0x40 + d;
            p / 0x40 / 0x40 / 0x40 == a && p / 0x40 / 0x40 % 0x40 == b && p / 0x40 % 0x40 == c && p % 0x40 == d
  {
    Digit(a * 0x1000 + b * 0x40 + c, d);
    ThreeDigits(a, b, c);
  }

  lemma SpelledOfChar(s: seq<byte>)
    requires s != [] && Width(s[0]) == |s| && Char(s).Some?
    ensures s == Spelled(Char(s).value)
  {
    if |s| == 2 {
      SpelledOfTwo(s);
    } else if |s| == 3 {
      SpelledOfThree(s);
    } else if |s| == 4 {
      SpelledOfFour(s);
    }
  }

  lemma {:induction false} DecodeSpelled(t: string)
    ensures Decode(AllSpelled(t)) == Some(t)
  {
    if t != "" {
      var first, rest := Spelled(t[0]), AllSpelled(t[1..]);
      CharOfSpelled(t[0]);
      assert (first + rest)[..|first|] == first && (first + rest)[|first|..] == rest;
      DecodeSpelled(t[1..]);
      assert t == [t[0]] + t[1..];
    }
  }

  lemma DecodeHead(s: seq<byte>, w: nat)
    requires s != [] && Decode(s).Some? && w == Width(s[0])
    ensures 0 < w <= |s| && Width(s[..w][0]) == |s[..w]| && Char(s[..w]).Some? && Decode(s[w..]).Some?
    ensures Decode(s).value == [Char(s[..w]).value] + Decode(s[w..]).value
  {
  }

  lemma SpelledMore(c: char, rest: string)
    ensures AllSpelled([c] + rest) == Spelled(c) + AllSpelled(rest)
  {
    assert ([c] + rest)[1..] == rest;
  }

  lemma {:induction false} SpelledDecode(s: seq<byte>)
    requires Decode(s).Some?
    ensures s == AllSpelled(Decode(s).value)
    decreases |s|
  {
    if s != [] {
      var w := Width(s[0]);
      DecodeHead(s, w);
      SpelledOfChar(s[..w]);
      SpelledDecode(s[w..]);
      SpelledMore(Char(s[..w]).value, Decode(s[w..]).value);
      assert s == s[..w] + s[w..];
    }
  }

  /** Bytes are decoded exactly if they spell a text, and then to that text. */
  lemma DecodeIsInverse(s: seq<byte>, t: string)
    ensures Decode(s) == Some(t) <==> s == AllSpelled(t)
  {
    DecodeSpelled(t);
    if Decode(s) == Some(t) {
      SpelledDecode(s);
    }
  }
}
