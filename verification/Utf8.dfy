/** UTF-8 decoding and whitespace trimming, as Rust's `read_line`, `trim` and `trim_end` do them. */
module Utf8 {
  import opened Basics

  type byte = b: int | 0 <= b < 256

  /** How many bytes the character starting with `b` takes; zero if none starts so. */
  function Width(b: byte): nat
  {
    if b < 0x80 then 1
    else if 0xC0 <= b < 0xE0 then 2
    else if 0xE0 <= b < 0xF0 then 3
    else if 0xF0 <= b < 0xF8 then 4
    else 0
  }

  function Payload(b: byte): nat { b % 0x40 }

  function CodePoint(s: seq<byte>): nat
    requires s != [] && Width(s[0]) == |s|
  {
    match |s|
    case 1 => s[0]
    case 2 => (s[0] % 0x20) * 0x40 + Payload(s[1])
    case 3 => (s[0] % 0x10) * 0x1000 + Payload(s[1]) * 0x40 + Payload(s[2])
    case _ => (s[0] % 0x08) * 0x40000 + Payload(s[1]) * 0x1000 + Payload(s[2]) * 0x40 + Payload(s[3])
  }

  /** Only the shortest spelling counts, and neither surrogates nor values past the last code point. */
  predicate Scalar(point: nat, width: nat)
  {
    && (if width == 1 then point < 0x80
        else if width == 2 then 0x80 <= point
        else if width == 3 then 0x800 <= point
        else 0x1_0000 <= point)
    && (point < 0xD800 || 0xE000 <= point < 0x11_0000)
  }

  function Char(s: seq<byte>): Option<char>
    requires s != [] && Width(s[0]) == |s|
  {
    if (forall i | 0 < i < |s| :: 0x80 <= s[i] < 0xC0) && Scalar(CodePoint(s), |s|) then Some(CodePoint(s) as char) else None
  }

  function Decode(s: seq<byte>): Option<string>
    decreases |s|
  {
    if s == [] then Some("")
    else
      var w := Width(s[0]);
      if w == 0 || w > |s| then None
      else
        match (Char(s[..w]), Decode(s[w..]))
        case (Some(c), Some(rest)) => Some([c] + rest)
        case _ => None
  }

  predicate IsAscii(s: string) { forall i | 0 <= i < |s| :: s[i] < 128 as char }

  function Ascii(s: string): (b: seq<byte>)
    requires IsAscii(s)
    ensures |b| == |s| && forall i | 0 <= i < |b| :: b[i] == s[i] as int
  {
    seq<byte>(|s|, i requires 0 <= i < |s| && s[i] < 128 as char => s[i] as int)
  }

  lemma CharOfAscii(c: char)
    requires c < 128 as char
    ensures Width(c as int) == 1 && Char([c as int]) == Some(c)
  {
    assert CodePoint([c as int]) == c as int;
  }

  lemma {:induction false} DecodeAscii(s: string)
    requires IsAscii(s)
    ensures Decode(Ascii(s)) == Some(s)
  {
    if s != "" {
      var b := Ascii(s);
      assert b[1..] == Ascii(s[1..]);
      DecodeAscii(s[1..]);
      CharOfAscii(s[0]);
      assert b[..1] == [s[0] as int];
      assert [s[0]] + s[1..] == s;
    }
  }

  /** Unicode's White_Space property. */
  predicate IsSpace(c: char)
  {
    var p := c as int;
    || 0x09 <= p <= 0x0D || p == 0x20 || p == 0x85 || p == 0xA0 || p == 0x1680
    || 0x2000 <= p <= 0x200A || p == 0x2028 || p == 0x2029 || p == 0x202F || p == 0x205F || p == 0x3000
  }

  function TrimEnd(s: string): (t: string)
    ensures |t| <= |s| && t == s[..|t|] && (t != "" ==> !IsSpace(t[|t| - 1]))
  {
    if s != "" && IsSpace(s[|s| - 1]) then TrimEnd(s[..|s| - 1]) else s
  }

  function TrimStart(s: string): (t: string)
    ensures |t| <= |s| && t == s[|s| - |t|..] && (t != "" ==> !IsSpace(t[0]))
  {
    if s != "" && IsSpace(s[0]) then TrimStart(s[1..]) else s
  }

  function Trim(s: string): string { TrimStart(TrimEnd(s)) }
}
