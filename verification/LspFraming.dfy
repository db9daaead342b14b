/** The byte framing of src/daemon/lsp.rs: what is written to a language server, and how its output is cut up. */
module LspFraming {
  import opened Basics
  import Decimal
  import opened Utf8

  const USIZE_MAX: nat := 0xFFFF_FFFF_FFFF_FFFF
  const LENGTH := "Content-Length:"
  const NEWLINE: byte := 10

  // ----- writing -----

  function HeaderLine(n: nat): string { LENGTH + " " + Decimal.Print(n) }

  function Frame(body: seq<byte>): seq<byte>
  {
    HeaderIsAscii(|body|);
    Ascii(HeaderLine(|body|)) + [13, 10] + [13, 10] + body
  }

  function Frames(bodies: seq<seq<byte>>): seq<byte>
  {
    if bodies == [] then [] else Frame(bodies[0]) + Frames(bodies[1..])
  }

  lemma HeaderIsAscii(n: nat)
    ensures IsAscii(HeaderLine(n)) && IsAscii(HeaderLine(n) + "\r\n")
  {
    var digits := Decimal.Print(n);
    assert forall i | 0 <= i < |digits| :: digits[i] in digits;
    assert IsAscii(LENGTH + " ");
  }

  // ----- reading -----

  /** The length of the first line, its newline included; all there is if there is no newline. */
  function LineLength(input: seq<byte>): (n: nat)
    ensures n <= |input| && (input != [] ==> n > 0)
  {
    if input == [] then 0
    else if input[0] == NEWLINE then 1
    else 1 + LineLength(input[1..])
  }

  predicate StartsWith(s: string, prefix: string) { |prefix| <= |s| && s[..|prefix|] == prefix }

  /** What one header line makes of the announced length. */
  function Announced(line: string, length: nat): nat
  {
    if StartsWith(line, LENGTH) then Or(Decimal.Parse(Trim(line[|LENGTH|..]), USIZE_MAX), 0) else length
  }

  /** Reads header lines up to an empty one; nothing when the input ends first or a line is not UTF-8. */
  function Headers(input: seq<byte>, length: nat): (r: Option<(seq<byte>, nat)>)
    ensures r.Some? ==> |r.value.0| < |input|
    decreases |input|
  {
    if input == [] then None
    else
      var n := LineLength(input);
      match Decode(input[..n])
      case None => None
      case Some(line) =>
        var trimmed := TrimEnd(line);
        if trimmed == "" then Some((input[n..], length)) else Headers(input[n..], Announced(trimmed, length))
  }

  /** The bodies delivered before the input ends. */
  function Messages(input: seq<byte>): seq<seq<byte>>
    decreases |input|
  {
    match Headers(input, 0)
    case None => []
    case Some((rest, n)) =>
      if n == 0 then Messages(rest)
      else if n > |rest| then []
      else [rest[..n]] + Messages(rest[n..])
  }

  // ----- the two loops -----

  function Fit(bytes: seq<byte>, room: nat): seq<byte> { if |bytes| <= room then bytes else bytes[..room] }

  /** A pipe that breaks after `room` bytes: the part that fits is written. */
  method WriteAll(written: seq<byte>, bytes: seq<byte>, room: nat) returns (after: seq<byte>, ok: bool)
    requires |written| <= room
    ensures after == Fit(written + bytes, room) && ok == (|written| + |bytes| <= room)
  {
    ok := |written| + |bytes| <= room;
    after := if ok then written + bytes else written + bytes[..room - |written|];
    assert !ok ==> after == (written + bytes)[..room];
  }

  lemma FitAppend(a: seq<byte>, b: seq<byte>, room: nat)
    requires |a| >= room
    ensures Fit(a + b, room) == Fit(a, room)
  {
    assert (a + b)[..room] == a[..room];
  }

  /** `write_loop` on the queued bodies, up to the byte at which the pipe breaks. */
  method WriteLoop(bodies: seq<seq<byte>>, room: nat) returns (output: seq<byte>)
    ensures output == Fit(Frames(bodies), room)
  {
    output := [];
    assert bodies[0..] == bodies;
    for i := 0 to |bodies|
      invariant |output| <= room && output + Frames(bodies[i..]) == Frames(bodies)
    {
      HeaderIsAscii(|bodies[i]|);
      assert bodies[i..][1..] == bodies[i + 1..];
      var header := Ascii(LENGTH + " " + Decimal.Print(|bodies[i]|)) + [13, 10, 13, 10];
      ghost var before, rest := output, Frames(bodies[i + 1..]);
      FrameParts(before, header, bodies[i], rest);
      var ok;
      output, ok := WriteAll(output, header, room);
      if !ok {
        FitAppend(before + header, bodies[i] + rest, room);
        return;
      }
      output, ok := WriteAll(output, bodies[i], room);
      if !ok {
        FitAppend(before + header + bodies[i], rest, room);
        return;
      }
    }
  }

  lemma FrameParts(before: seq<byte>, header: seq<byte>, body: seq<byte>, rest: seq<byte>)
    requires IsAscii(HeaderLine(|body|)) && header == Ascii(HeaderLine(|body|)) + [13, 10, 13, 10]
    ensures before + (Frame(body) + rest) == before + header + (body + rest) == before + header + body + rest
  {
    assert Frame(body) == header + body;
  }

  /** `read_loop` until the server's output ends. */
  method ReadLoop(input: seq<byte>) returns (messages: seq<seq<byte>>)
    ensures messages == Messages(input)
  {
    messages := [];
    var rest := input;
    while true
      invariant messages + Messages(rest) == Messages(input)
      decreases |rest|
    {
      var found := ReadHeaders(rest);
      if found.None? {
        return;
      }
      var contentLength := found.value.1;
      rest := found.value.0;
      if contentLength == 0 {
        continue;
      }
      if contentLength > |rest| {
        return;
      }
      messages := messages + [rest[..contentLength]];
      rest := rest[contentLength..];
    }
  }

  method ReadHeaders(input: seq<byte>) returns (found: Option<(seq<byte>, nat)>)
    ensures found == Headers(input, 0)
  {
    var contentLength := 0;
    var rest := input;
    while true
      invariant Headers(rest, contentLength) == Headers(input, 0)
      decreases |rest|
    {
      if rest == [] {
        return None;
      }
      var n := LineLength(rest);
      var line := Decode(rest[..n]);
      if line.None? {
        return None;
      }
      rest := rest[n..];
      var trimmed := TrimEnd(line.value);
      if trimmed == "" {
        return Some((rest, contentLength));
      }
      if StartsWith(trimmed, LENGTH) {
        var parsed := Decimal.Parse(Trim(trimmed[|LENGTH|..]), USIZE_MAX);
        contentLength := if parsed.Some? then parsed.value else 0;
      }
    }
  }

  // ----- what is read of what was written -----

  function NonEmpty(bodies: seq<seq<byte>>): seq<seq<byte>>
  {
    if bodies == [] then []
    else (if bodies[0] == [] then [] else [bodies[0]]) + NonEmpty(bodies[1..])
  }

  lemma {:induction false} FirstLine(line: seq<byte>, tail: seq<byte>)
    requires NEWLINE !in line
    ensures LineLength(line + [NEWLINE] + tail) == |line| + 1
  {
    var input := line + [NEWLINE] + tail;
    if line != [] {
      assert input[1..] == line[1..] + [NEWLINE] + tail;
      FirstLine(line[1..], tail);
    }
  }

  lemma {:induction false} LastLine(line: seq<byte>)
    requires NEWLINE !in line
    ensures LineLength(line) == |line|
  {
    if line != [] {
      LastLine(line[1..]);
    }
  }

  lemma HeaderHasNoNewline(n: nat)
    requires IsAscii(HeaderLine(n))
    ensures NEWLINE !in Ascii(HeaderLine(n)) + [13]
  {
    var digits := Decimal.Print(n);
    assert forall i | 0 <= i < |digits| :: digits[i] in digits && Decimal.IsDigit(digits[i]);
    assert forall i | 0 <= i < |LENGTH + " "| :: (LENGTH + " ")[i] != '\n';
  }

  lemma TrimNewline(h: string)
    requires h != "" && !IsSpace(h[|h| - 1])
    ensures TrimEnd(h + "\r\n") == h
  {
    var line := h + "\r\n";
    assert line[|h| + 1] == '\n' && line[..|h| + 1] == h + "\r";
    assert TrimEnd(line) == TrimEnd(h + "\r");
    assert (h + "\r")[|h|] == '\r' && (h + "\r")[..|h|] == h;
  }

  lemma TrimBlank(digits: string)
    requires digits != "" && !IsSpace(digits[0]) && !IsSpace(digits[|digits| - 1])
    ensures Trim(" " + digits) == digits
  {
    var value := " " + digits;
    assert value[|digits|] == digits[|digits| - 1];
    assert TrimEnd(value) == value;
    assert TrimStart(digits) == digits;
    assert value[0] == ' ' && value[1..] == digits;
  }

  /** The length in a written header is read back. */
  lemma HeaderAnnounces(n: nat)
    requires n <= USIZE_MAX
    ensures TrimEnd(HeaderLine(n) + "\r\n") == HeaderLine(n) && Announced(HeaderLine(n), 0) == n
  {
    var h, digits := HeaderLine(n), Decimal.Print(n);
    assert digits[0] in digits && digits[|digits| - 1] in digits;
    assert h[|h| - 1] == digits[|digits| - 1];
    TrimNewline(h);
    assert h == LENGTH + (" " + digits);
    assert h[|LENGTH|..] == " " + digits && h[..|LENGTH|] == LENGTH;
    TrimBlank(digits);
    Decimal.ParsePrint(n, USIZE_MAX);
  }

  /** After the first line of a written header comes the second, empty one. */
  lemma HeaderStep(n: nat, tail: seq<byte>)
    requires n <= USIZE_MAX && IsAscii(HeaderLine(n))
    ensures Headers(Ascii(HeaderLine(n)) + [13, 10] + tail, 0) == Headers(tail, n)
  {
    HeaderIsAscii(n);
    var h := HeaderLine(n);
    var line, input := Ascii(h) + [13], Ascii(h) + [13, 10] + tail;
    HeaderHasNoNewline(n);
    assert input == line + [NEWLINE] + tail;
    FirstLine(line, tail);
    assert input[..|line| + 1] == Ascii(h + "\r\n") && input[|line| + 1..] == tail;
    DecodeAscii(h + "\r\n");
    HeaderAnnounces(n);
  }

  lemma EmptyLine(n: nat, tail: seq<byte>)
    ensures Headers([13, 10] + tail, n) == Some((tail, n))
  {
    var input := [13, 10] + tail;
    assert input == [13] + [NEWLINE] + tail;
    FirstLine([13], tail);
    assert input[..2] == Ascii("\r\n") && input[2..] == tail;
    DecodeAscii("\r\n");
    assert "\r\n"[..1] == "\r" && "\r"[..0] == "";
  }

  lemma HeadersOfFrame(body: seq<byte>, tail: seq<byte>)
    requires |body| <= USIZE_MAX
    ensures Headers(Frame(body) + tail, 0) == Some((body + tail, |body|))
  {
    HeaderIsAscii(|body|);
    var h := Ascii(HeaderLine(|body|));
    assert Frame(body) + tail == h + [13, 10] + ([13, 10] + (body + tail));
    HeaderStep(|body|, [13, 10] + (body + tail));
    EmptyLine(|body|, body + tail);
  }

  lemma NonEmptyOne(body: seq<byte>)
    ensures NonEmpty([body]) == if body == [] then [] else [body]
  {
  }

  lemma FrameIsRead(body: seq<byte>, tail: seq<byte>)
    requires |body| <= USIZE_MAX
    ensures Messages(Frame(body) + tail) == NonEmpty([body]) + Messages(tail)
  {
    HeadersOfFrame(body, tail);
    assert (body + tail)[..|body|] == body && (body + tail)[|body|..] == tail;
    NonEmptyOne(body);
  }

  predicate Addressable(bodies: seq<seq<byte>>) { forall b <- bodies :: |b| <= USIZE_MAX }

  lemma NonEmptyCons(bodies: seq<seq<byte>>)
    requires bodies != []
    ensures NonEmpty(bodies) == NonEmpty([bodies[0]]) + NonEmpty(bodies[1..])
  {
    NonEmptyOne(bodies[0]);
  }

  lemma AsciiOfBoth(a: string, b: string)
    requires IsAscii(a) && IsAscii(b)
    ensures IsAscii(a + b) && Ascii(a + b) == Ascii(a) + Ascii(b)
  {
  }

  lemma EndIsSpelled(end: string)
    requires end == "\r\n\r\n"
    ensures IsAscii(end) && Ascii(end) == [13, 10, 13, 10]
  {
    assert end[0] == '\r' && end[1] == '\n' && end[2] == '\r' && end[3] == '\n';
  }

  /** A frame as the protocol spells it. */
  lemma FrameIsSpelled(body: seq<byte>, line: string, end: string)
    requires line == "Content-Length: " + Decimal.Print(|body|) && end == "\r\n\r\n"
    ensures IsAscii(line + end) && Frame(body) == Ascii(line + end) + body
  {
    LineIsSpelled(|body|, line);
    HeaderIsAscii(|body|);
    EndIsSpelled(end);
    SpelledOut(body, line, end);
  }

  lemma SpelledOut(body: seq<byte>, line: string, end: string)
    requires IsAscii(line) && line == HeaderLine(|body|) && IsAscii(end) && Ascii(end) == [13, 10, 13, 10]
    ensures IsAscii(line + end) && Frame(body) == Ascii(line + end) + body
  {
    AsciiOfBoth(line, end);
    assert [13, 10, 13, 10] == [13, 10] + [13, 10];
  }

  lemma LineIsSpelled(n: nat, line: string)
    requires line == "Content-Length: " + Decimal.Print(n)
    ensures HeaderLine(n) == line
  {
    assert LENGTH + " " == "Content-Length: ";
  }

  /** The reader delivers exactly the written bodies, but for empty ones, and then goes on with what follows. */
  lemma {:induction false} RoundTrip(bodies: seq<seq<byte>>, tail: seq<byte>)
    requires Addressable(bodies)
    ensures Messages(Frames(bodies) + tail) == NonEmpty(bodies) + Messages(tail)
  {
    if bodies == [] {
      assert Frames(bodies) + tail == tail;
    } else {
      var rest := bodies[1..];
      Associate(Frame(bodies[0]), Frames(rest), tail);
      FrameIsRead(bodies[0], Frames(rest) + tail);
      RoundTrip(rest, tail);
      Associate(NonEmpty([bodies[0]]), NonEmpty(rest), Messages(tail));
      NonEmptyCons(bodies);
    }
  }

  lemma {:induction false} NonEmptyIsAll(bodies: seq<seq<byte>>)
    ensures |NonEmpty(bodies)| <= |bodies|
    ensures NonEmpty(bodies) == bodies <==> [] !in bodies
  {
    if bodies != [] {
      NonEmptyIsAll(bodies[1..]);
      if bodies[0] == [] {
        assert bodies[0] in bodies;
      } else {
        assert bodies == [bodies[0]] + bodies[1..];
        assert NonEmpty(bodies)[1..] == NonEmpty(bodies[1..]);
      }
    }
  }

  /** The whole list comes back exactly when none of it is empty. */
  lemma AllIsReadBack(bodies: seq<seq<byte>>)
    requires Addressable(bodies)
    ensures Messages(Frames(bodies)) == bodies <==> [] !in bodies
  {
    RoundTrip(bodies, []);
    assert Frames(bodies) + [] == Frames(bodies);
    NonEmptyIsAll(bodies);
  }

  // ----- a stream cut short -----

  /** The bodies whose frames lie within the first `n` bytes. */
  function Complete(bodies: seq<seq<byte>>, n: nat): seq<seq<byte>>
  {
    if bodies == [] || |Frame(bodies[0])| > n then []
    else [bodies[0]] + Complete(bodies[1..], n - |Frame(bodies[0])|)
  }

  lemma {:induction false} TrimKeepsStart(s: string)
    requires s != "" && !IsSpace(s[0])
    ensures TrimEnd(s) != ""
  {
    if IsSpace(s[|s| - 1]) {
      TrimKeepsStart(s[..|s| - 1]);
    }
  }

  /** A line without a newline or a leading space is no empty line, and then the input ends. */
  lemma LoneLine(text: string, length: nat)
    requires IsAscii(text) && NEWLINE !in Ascii(text) && text != "" && !IsSpace(text[0])
    ensures Headers(Ascii(text), length) == None
  {
    var line := Ascii(text);
    LastLine(line);
    DecodeAscii(text);
    TrimKeepsStart(text);
    assert line[..|line|] == line && line[|line|..] == [];
  }

  /** A frame cut before the end of its first line. */
  lemma CutInLine(n: nat, k: nat)
    requires IsAscii(HeaderLine(n) + "\r\n") && 0 < k <= |HeaderLine(n)| + 1
    ensures Headers(Ascii(HeaderLine(n) + "\r\n")[..k], 0) == None
  {
    var text := (HeaderLine(n) + "\r\n")[..k];
    HeaderIsAscii(n);
    HeaderHasNoNewline(n);
    assert Ascii(text) == Ascii(HeaderLine(n) + "\r\n")[..k] == (Ascii(HeaderLine(n)) + [13])[..k];
    assert forall x <- Ascii(text) :: x in Ascii(HeaderLine(n)) + [13];
    assert text[0] == LENGTH[0] == 'C';
    LoneLine(text, 0);
  }

  lemma CutFrame(body: seq<byte>, k: nat)
    requires |body| <= USIZE_MAX && k < |Frame(body)|
    ensures Messages(Frame(body)[..k]) == []
  {
    var n := |body|;
    HeaderIsAscii(n);
    var h := Ascii(HeaderLine(n));
    var cut := Frame(body)[..k];
    if k == 0 {
    } else if k <= |h| + 1 {
      CutInLine(n, k);
      assert cut == Ascii(HeaderLine(n) + "\r\n")[..k];
    } else if k <= |h| + 3 {
      var part := [13, 10][..k - |h| - 2];
      assert cut == h + [13, 10] + part;
      HeaderStep(n, part);
      CutInEmptyLine(n, part);
    } else {
      var part := body[..k - |h| - 4];
      assert cut == h + [13, 10] + ([13, 10] + part);
      HeaderStep(n, [13, 10] + part);
      EmptyLine(n, part);
    }
  }

  lemma CutInEmptyLine(n: nat, part: seq<byte>)
    requires part == [] || part == [13]
    ensures Headers(part, n) == if part == [] then None else Some(([], n))
  {
    if part == [13] {
      LastLine(part);
      assert part[..1] == Ascii("\r") && part[1..] == [];
      DecodeAscii("\r");
      assert "\r"[..0] == "";
    }
  }

  lemma CutAround(a: seq<byte>, b: seq<byte>, n: nat)
    requires n <= |a + b|
    ensures (a + b)[..n] == if |a| > n then a[..n] else a + b[..n - |a|]
  {
  }

  /** The first frame arrived whole. */
  lemma FirstArrived(body: seq<byte>, rest: seq<seq<byte>>, m: nat)
    requires |body| <= USIZE_MAX && m <= |Frames(rest)| && Messages(Frames(rest)[..m]) == NonEmpty(Complete(rest, m))
    ensures Messages(Frame(body) + Frames(rest)[..m]) == NonEmpty([body] + Complete(rest, m))
  {
    FrameIsRead(body, Frames(rest)[..m]);
    var whole := [body] + Complete(rest, m);
    assert whole[0] == body && whole[1..] == Complete(rest, m);
    NonEmptyCons(whole);
  }

  /** However much of the stream arrives, what is delivered is the bodies of its whole frames, and nothing else. */
  lemma {:induction false} CutStream(bodies: seq<seq<byte>>, n: nat)
    requires Addressable(bodies) && n <= |Frames(bodies)|
    ensures Messages(Frames(bodies)[..n]) == NonEmpty(Complete(bodies, n))
  {
    if bodies != [] {
      var first, rest := Frame(bodies[0]), bodies[1..];
      CutAround(first, Frames(rest), n);
      if |first| > n {
        CutFrame(bodies[0], n);
      } else {
        CutStream(rest, n - |first|);
        FirstArrived(bodies[0], rest, n - |first|);
      }
    }
  }

  lemma {:induction false} AllComplete(bodies: seq<seq<byte>>, n: nat)
    requires n >= |Frames(bodies)|
    ensures Complete(bodies, n) == bodies
  {
    if bodies != [] {
      AllComplete(bodies[1..], n - |Frame(bodies[0])|);
    }
  }

  /** Through a pipe that breaks after `room` bytes come the bodies whose frames were written whole. */
  lemma BrokenPipeDelivers(bodies: seq<seq<byte>>, room: nat)
    requires Addressable(bodies)
    ensures Messages(Fit(Frames(bodies), room)) == NonEmpty(Complete(bodies, room))
  {
    if |Frames(bodies)| <= room {
      AllComplete(bodies, room);
      RoundTrip(bodies, []);
      assert Frames(bodies) + [] == Frames(bodies);
    } else {
      CutStream(bodies, room);
    }
  }
}
