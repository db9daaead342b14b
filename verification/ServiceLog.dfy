/**
 * The retained log of one service (src/service/mod.rs): a ring of the newest
 * 2000 lines, numbered without gaps, read through a cursor.
 */
module ServiceLog {
  import opened Basics
  import opened PortTable

  const RETAINED: nat := 2000

  /** Why a start was refused. */
  datatype Refusal =
    | NoPort(error: PortError)
    | RangeConflict(reason: string)
    | HealthRef(dep: string, isSelf: bool)
    | CommandRef(dep: string)
    | EnvRef(dep: string)
    | Given(message: string)

  /** A log line: process output, or a marker the manager writes. */
  datatype Text =
    | Output(line: string)
    | StartingMark
    | RunningMark
    | StoppedMark
    | ExitedMark(code: Option<int>)
    | NotReadyMark(reason: string)
    | ReadyLateMark
    | RestartingMark
    | WaitingMark(deps: seq<string>)
    | RefusedMark(why: Refusal)

  datatype LogLine = LogLine(number: nat, text: Text)

  datatype Ring = Ring(lines: seq<LogLine>, nextSeq: nat)

  const EMPTY: Ring := Ring([], 0)

  function Pushed(r: Ring, text: Text): Ring
  {
    var lines := r.lines + [LogLine(r.nextSeq, text)];
    Ring(if |lines| > RETAINED then lines[|lines| - RETAINED..] else lines, r.nextSeq + 1)
  }

  /** The ring a restarted or held service continues with: its cursor is read off the last line. */
  function Resumed(lines: seq<LogLine>): Ring
  {
    Ring(lines, if lines == [] then 0 else lines[|lines| - 1].number + 1)
  }

  function TextsOf(lines: seq<LogLine>): (t: seq<Text>)
    ensures |t| == |lines|
    ensures forall i | 0 <= i < |t| :: t[i] == lines[i].text
  {
    seq(|lines|, i requires 0 <= i < |lines| => lines[i].text)
  }

  function From(lines: seq<LogLine>, after: nat): seq<LogLine>
  {
    if lines == [] then []
    else if lines[0].number >= after then [lines[0]] + From(lines[1..], after)
    else From(lines[1..], after)
  }

  function Newest(lines: seq<LogLine>, limit: Option<nat>): seq<LogLine>
  {
    if limit.Some? && |lines| > limit.value then lines[|lines| - limit.value..] else lines
  }

  /** The lines numbered `after` or more, at most the newest `limit`, and the cursor for the next read. */
  function Window(r: Ring, after: nat, limit: Option<nat>): (seq<LogLine>, nat)
  {
    (Newest(From(r.lines, after), limit), r.nextSeq)
  }

  /** Lines are numbered consecutively up to `nextSeq`, and as many as possible are kept. */
  ghost predicate Contiguous(r: Ring)
  {
    && |r.lines| == (if r.nextSeq < 2000 then r.nextSeq else 2000)
    && forall i | 0 <= i < |r.lines| :: r.lines[i].number == r.nextSeq - |r.lines| + i
  }

  lemma PushKeepsContiguous(r: Ring, text: Text)
    requires Contiguous(r)
    ensures Contiguous(Pushed(r, text))
  {
  }

  /** A restart neither reuses nor skips a number. */
  lemma ResumeIsIdentity(r: Ring)
    requires Contiguous(r)
    ensures Resumed(r.lines) == r
  {
  }

  // ----- reading -----

  /** Index of the first line a cursor reads. */
  function Skip(r: Ring, after: nat): int
  {
    Min(|r.lines|, Max(0, after - (r.nextSeq - |r.lines|)))
  }

  lemma {:induction false} FromConsecutive(lines: seq<LogLine>, after: nat, first: nat)
    requires forall i | 0 <= i < |lines| :: lines[i].number == first + i
    ensures From(lines, after) == lines[Min(|lines|, Max(0, after - first))..]
  {
    if lines != [] {
      var rest := lines[1..];
      FromConsecutive(rest, after, first + 1);
      if lines[0].number >= after {
        assert From(rest, after) == rest[0..];
        assert lines == [lines[0]] + rest;
      } else {
        var n := Min(|rest|, Max(0, after - (first + 1)));
        assert rest[n..] == lines[n + 1..];
      }
    }
  }

  /** A window is a suffix of the retained lines, from the cursor on, and no longer than the limit. */
  lemma WindowIsSuffix(r: Ring, after: nat, limit: Option<nat>)
    requires Contiguous(r)
    ensures var from := if limit.Some? then Max(Skip(r, after), |r.lines| - limit.value) else Skip(r, after);
            Window(r, after, limit) == (r.lines[from..], r.nextSeq)
  {
    FromConsecutive(r.lines, after, r.nextSeq - |r.lines|);
    var skip := Skip(r, after);
    if limit.Some? && |r.lines| - skip > limit.value {
      assert r.lines[skip..][|r.lines| - skip - limit.value..] == r.lines[|r.lines| - limit.value..];
    }
  }

  /** How many of `len` consecutive lines ending just below `nextSeq` are numbered below `before`. */
  function LinesBefore(len: nat, nextSeq: nat, before: nat): nat
  {
    var first := Max(0, nextSeq - len);
    Min(Max(0, before - first), len)
  }

  /** The client's count is exact on every unlimited window. */
  lemma LinesBeforeIsExact(r: Ring, after: nat, before: nat)
    requires Contiguous(r)
    ensures var (lines, nextSeq) := Window(r, after, None);
            var keep := LinesBefore(|lines|, nextSeq, before);
            && (forall i | 0 <= i < keep :: lines[i].number < before)
            && (forall i | keep <= i < |lines| :: lines[i].number >= before)
  {
    WindowIsSuffix(r, after, None);
    var lines := r.lines[Skip(r, after)..];
    assert forall i | 0 <= i < |lines| :: lines[i] == r.lines[Skip(r, after) + i];
  }

  // ----- polling over a whole run -----

  datatype LogStep = Arrive(text: Text) | Restart | Poll

  /** A service's ring and a client that polls it with the returned cursor. */
  datatype Polled = Polled(ring: Ring, cursor: nat, seen: seq<Text>)

  function PollStep(p: Polled, step: LogStep): Polled
  {
    match step
    case Arrive(text) => p.(ring := Pushed(p.ring, text))
    case Restart => p.(ring := Resumed(p.ring.lines))
    case Poll =>
      var (lines, next) := Window(p.ring, p.cursor, None);
      p.(cursor := next, seen := p.seen + TextsOf(lines))
  }

  function PollRun(p: Polled, steps: seq<LogStep>): Polled
  {
    if steps == [] then p else PollStep(PollRun(p, steps[..|steps| - 1]), steps[|steps| - 1])
  }

  /** What the client has not read: `start` at first, then what arrived since the last poll. */
  function Unread(start: seq<Text>, steps: seq<LogStep>): seq<Text>
  {
    if steps == [] then start
    else
      var before := Unread(start, steps[..|steps| - 1]);
      match steps[|steps| - 1]
      case Arrive(text) => before + [text]
      case Restart => before
      case Poll => []
  }

  /** The part of a batch a ring retains. */
  function Tail(batch: seq<Text>): (t: seq<Text>)
    ensures |t| == Min(|batch|, RETAINED)
  {
    if |batch| > RETAINED then batch[|batch| - RETAINED..] else batch
  }

  /** Each polled batch cut to what the ring retains. */
  function Retained(start: seq<Text>, steps: seq<LogStep>): seq<Text>
  {
    if steps == [] then []
    else
      var init := steps[..|steps| - 1];
      Retained(start, init) + (if steps[|steps| - 1].Poll? then Tail(Unread(start, init)) else [])
  }

  /** Everything unread that arrived before the last poll. */
  function Delivered(start: seq<Text>, steps: seq<LogStep>): seq<Text>
  {
    if steps == [] then []
    else
      var init := steps[..|steps| - 1];
      Delivered(start, init) + (if steps[|steps| - 1].Poll? then Unread(start, init) else [])
  }

  /** At most 2000 unread lines at every poll. */
  predicate Gentle(start: seq<Text>, steps: seq<LogStep>)
  {
    steps != [] ==>
      var init := steps[..|steps| - 1];
      Gentle(start, init) && (steps[|steps| - 1].Poll? ==> |Unread(start, init)| <= RETAINED)
  }

  predicate EndsWith(s: seq<Text>, end: seq<Text>)
  {
    |end| <= |s| && s[|s| - |end|..] == end
  }

  /** The ring ends with what the client has not read yet, as far as it is retained. */
  ghost predicate Following(p: Polled, unread: seq<Text>)
  {
    && Contiguous(p.ring)
    && p.cursor + |unread| == p.ring.nextSeq
    && EndsWith(TextsOf(p.ring.lines), Tail(unread))
  }

  lemma EndsWithPushed(s: seq<Text>, end: seq<Text>, text: Text)
    requires EndsWith(s, end)
    ensures EndsWith(s + [text], end + [text])
  {
    assert (s + [text])[|s| - |end|..] == s[|s| - |end|..] + [text];
  }

  /** Cutting both to the retained length keeps the end. */
  lemma EndsWithCut(s: seq<Text>, end: seq<Text>)
    requires EndsWith(s, end)
    ensures EndsWith(Tail(s), Tail(end))
  {
    assert Tail(s)[|Tail(s)| - |Tail(end)|..] == s[|s| - |Tail(end)|..];
    assert s[|s| - |Tail(end)|..] == s[|s| - |end|..][|end| - |Tail(end)|..];
  }

  lemma PushedTexts(r: Ring, text: Text)
    ensures TextsOf(Pushed(r, text).lines) == Tail(TextsOf(r.lines) + [text])
  {
  }

  lemma EndsWithArrived(s: seq<Text>, unread: seq<Text>, text: Text)
    requires EndsWith(s, Tail(unread))
    ensures EndsWith(Tail(s + [text]), Tail(unread + [text]))
  {
    EndsWithPushed(s, Tail(unread), text);
    EndsWithCut(s + [text], Tail(unread) + [text]);
    TailOfTail(unread, text);
  }

  lemma ArriveFollows(p: Polled, unread: seq<Text>, text: Text)
    requires Following(p, unread)
    ensures Following(PollStep(p, Arrive(text)), unread + [text])
  {
    PushKeepsContiguous(p.ring, text);
    PushedTexts(p.ring, text);
    EndsWithArrived(TextsOf(p.ring.lines), unread, text);
  }

  lemma TailOfTail(unread: seq<Text>, text: Text)
    ensures Tail(Tail(unread) + [text]) == Tail(unread + [text])
  {
  }

  /** A poll returns exactly the retained part of the unread lines. */
  lemma PollReadsTail(p: Polled, unread: seq<Text>)
    requires Following(p, unread)
    ensures Following(PollStep(p, Poll), [])
    ensures PollStep(p, Poll).seen == p.seen + Tail(unread)
  {
    WindowIsSuffix(p.ring, p.cursor, None);
    var lines := p.ring.lines;
    var skip := |lines| - |Tail(unread)|;
    assert Skip(p.ring, p.cursor) == skip;
    assert TextsOf(lines[skip..]) == TextsOf(lines)[skip..];
  }

  /** Over every run the client sees each batch's retained part, in order, restarts included. */
  lemma {:induction false} PollingSeesRetained(p: Polled, start: seq<Text>, steps: seq<LogStep>)
    requires Following(p, start)
    ensures Following(PollRun(p, steps), Unread(start, steps))
    ensures PollRun(p, steps).seen == p.seen + Retained(start, steps)
  {
    if steps != [] {
      var init, last := steps[..|steps| - 1], steps[|steps| - 1];
      PollingSeesRetained(p, start, init);
      var q, unread := PollRun(p, init), Unread(start, init);
      match last {
        case Arrive(text) => ArriveFollows(q, unread, text);
        case Restart => ResumeIsIdentity(q.ring);
        case Poll => PollReadsTail(q, unread);
      }
      Associate(p.seen, Retained(start, init), if last.Poll? then Tail(unread) else []);
    }
  }

  lemma {:induction false} RetainedIsDelivered(start: seq<Text>, steps: seq<LogStep>)
    ensures |Retained(start, steps)| <= |Delivered(start, steps)|
    ensures |Retained(start, steps)| == |Delivered(start, steps)| <==> Gentle(start, steps)
    ensures Gentle(start, steps) ==> Retained(start, steps) == Delivered(start, steps)
  {
    if steps != [] {
      RetainedIsDelivered(start, steps[..|steps| - 1]);
    }
  }

  /**
   * A client that polls with the returned cursor sees every unread line
   * delivered before its last poll exactly once, in order, if and only if no
   * poll finds more than 2000 of them.
   */
  lemma PollingIsExact(p: Polled, start: seq<Text>, steps: seq<LogStep>)
    requires Following(p, start)
    ensures PollRun(p, steps).seen == p.seen + Delivered(start, steps) <==> Gentle(start, steps)
  {
    PollingSeesRetained(p, start, steps);
    RetainedIsDelivered(start, steps);
    if PollRun(p, steps).seen == p.seen + Delivered(start, steps) {
      assert |p.seen + Retained(start, steps)| == |p.seen + Delivered(start, steps)|;
    }
  }

  /** A client may start at any cursor: what it has not read is what the ring dropped since, then what it retains. */
  lemma AnyCursorFollows(ring: Ring, after: nat, dropped: seq<Text>, seen: seq<Text>)
    requires Contiguous(ring) && after <= ring.nextSeq && |dropped| == Max(0, ring.nextSeq - |ring.lines| - after)
    ensures Following(Polled(ring, after, seen), dropped + TextsOf(ring.lines[Skip(ring, after)..]))
  {
    var texts, rest := TextsOf(ring.lines), TextsOf(ring.lines[Skip(ring, after)..]);
    assert rest == texts[Skip(ring, after)..];
    if dropped != [] {
      assert Tail(dropped + rest) == rest;
    }
  }
}
