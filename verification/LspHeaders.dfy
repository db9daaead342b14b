/** Header blocks as other programs write them: any lines, of which the last length counts. */
module LspHeaders {
  import opened Basics
  import Decimal
  import opened Utf8
  import opened LspFraming

  /** A line of UTF-8, its newline not included, that is not blank. */
  predicate Header(bytes: seq<byte>, text: string)
  {
    NEWLINE !in bytes && Decode(bytes + [NEWLINE]) == Some(text) && TrimEnd(text) != ""
  }

  predicate BlankLine(bytes: seq<byte>)
  {
    NEWLINE !in bytes && Decode(bytes + [NEWLINE]).Some? && TrimEnd(Decode(bytes + [NEWLINE]).value) == ""
  }

  function Block(lines: seq<seq<byte>>, k: nat): seq<byte>
    requires k <= |lines|
    decreases |lines| - k
  {
    if k == |lines| then [] else lines[k] + [NEWLINE] + Block(lines, k + 1)
  }

  /** What a header line says of the length, if anything: a number, or nothing that can be read. */
  function Says(line: string): Option<Option<nat>>
  {
    var name := "Content-Length:";
    if name <= line then Some(Decimal.Parse(Trim(line[|name|..]), 0xFFFF_FFFF_FFFF_FFFF)) else None
  }

  /** The number the last of the first `n` lines that says one gives; 0 if it cannot be read, or if there is none. */
  function LengthOf(texts: seq<string>, n: nat): nat
    requires n <= |texts|
  {
    if n == 0 then 0
    else
      var said := Says(TrimEnd(texts[n - 1]));
      if said.Some? then Or(said.value, 0) else LengthOf(texts, n - 1)
  }

  lemma LineIsRead(bytes: seq<byte>, text: string, tail: seq<byte>, n: nat)
    requires NEWLINE !in bytes && Decode(bytes + [NEWLINE]) == Some(text)
    ensures Headers(bytes + [NEWLINE] + tail, n) ==
            if TrimEnd(text) == "" then Some((tail, n)) else Headers(tail, Announced(TrimEnd(text), n))
  {
    var input := bytes + [NEWLINE] + tail;
    FirstLine(bytes, tail);
    assert input[..|bytes| + 1] == bytes + [NEWLINE] && input[|bytes| + 1..] == tail;
  }

  lemma AnnouncedIs(line: string, n: nat)
    ensures Announced(line, n) == if Says(line).Some? then Or(Says(line).value, 0) else n
  {
    var name := "Content-Length:";
    assert name == LENGTH && (name <= line <==> StartsWith(line, LENGTH));
  }

  /** The line takes the length from `n` to `m`. */
  predicate Leads(text: string, n: nat, m: nat) { TrimEnd(text) != "" && m == Announced(TrimEnd(text), n) }

  lemma LengthLeads(texts: seq<string>, k: nat)
    requires k < |texts| && TrimEnd(texts[k]) != ""
    ensures Leads(texts[k], LengthOf(texts, k), LengthOf(texts, k + 1))
  {
    AnnouncedIs(TrimEnd(texts[k]), LengthOf(texts, k));
  }

  lemma LineLeads(bytes: seq<byte>, text: string, tail: seq<byte>, n: nat, m: nat)
    requires Header(bytes, text) && Leads(text, n, m)
    ensures Headers(bytes + [NEWLINE] + tail, n) == Headers(tail, m)
  {
    LineIsRead(bytes, text, tail, n);
  }

  /** From the `k`-th line on, with the length given by the lines before it. */
  lemma {:induction false} BlockIsRead(lines: seq<seq<byte>>, texts: seq<string>, length: nat -> nat, k: nat, rest: seq<byte>)
    requires |lines| == |texts| && k <= |lines|
    requires forall i: nat | i < |lines| :: Header(lines[i], texts[i]) && Leads(texts[i], length(i), length(i + 1))
    ensures Headers(Block(lines, k) + rest, length(k)) == Headers(rest, length(|lines|))
    decreases |lines| - k
  {
    if k == |lines| {
      assert Block(lines, k) + rest == rest;
    } else {
      Associate(lines[k] + [NEWLINE], Block(lines, k + 1), rest);
      LineLeads(lines[k], texts[k], Block(lines, k + 1) + rest, length(k), length(k + 1));
      BlockIsRead(lines, texts, length, k + 1, rest);
    }
  }

  lemma BlockEnds(lines: seq<seq<byte>>, texts: seq<string>, end: seq<byte>, tail: seq<byte>)
    requires |lines| == |texts| && BlankLine(end) && forall i | 0 <= i < |lines| :: Header(lines[i], texts[i])
    ensures Headers(Block(lines, 0) + (end + [NEWLINE] + tail), 0) == Some((tail, LengthOf(texts, |texts|)))
  {
    var length := Lengths(texts);
    LengthsLead(lines, texts, length);
    BlockIsRead(lines, texts, length, 0, end + [NEWLINE] + tail);
    LineIsRead(end, Decode(end + [NEWLINE]).value, tail, length(|lines|));
  }

  function Lengths(texts: seq<string>): nat -> nat { (i: nat) => if i <= |texts| then LengthOf(texts, i) else 0 }

  lemma LengthsLead(lines: seq<seq<byte>>, texts: seq<string>, length: nat -> nat)
    requires |lines| == |texts| && length == Lengths(texts) && forall i | 0 <= i < |lines| :: Header(lines[i], texts[i])
    ensures forall i: nat | i < |lines| :: Leads(texts[i], length(i), length(i + 1))
  {
    forall i: nat | i < |lines|
      ensures Leads(texts[i], length(i), length(i + 1))
    {
      assert Header(lines[i], texts[i]);
      LengthLeads(texts, i);
    }
  }

  /**
   * However many header lines come, in whatever order, the message behind them
   * is as long as the last length says, and without a length there is none.
   */
  lemma MessageIsRead(lines: seq<seq<byte>>, texts: seq<string>, end: seq<byte>, body: seq<byte>, tail: seq<byte>)
    requires |lines| == |texts| && BlankLine(end) && forall i | 0 <= i < |lines| :: Header(lines[i], texts[i])
    requires |body| == LengthOf(texts, |texts|)
    ensures Messages(Block(lines, 0) + (end + [NEWLINE] + (body + tail))) == (if body == [] then [] else [body]) + Messages(tail)
  {
    BlockEnds(lines, texts, end, body + tail);
    assert (body + tail)[..|body|] == body && (body + tail)[|body|..] == tail;
  }
}
