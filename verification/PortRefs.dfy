/**
 * `${service.port}` placeholders: the interpolator of src/ports/mod.rs and the
 * separate scanner of src/service/spawn.rs that looks for one left unresolved.
 */
module PortRefs {
  import opened Basics
  import opened Decimal

  type PortMap = map<string, nat>

  /** Index of the first `${`, or `|s|`. */
  function FindOpen(s: string): (i: nat)
    ensures i == |s| || i + 2 <= |s|
  {
    if |s| < 2 then |s|
    else if s[0] == '$' && s[1] == '{' then 0
    else 1 + FindOpen(s[1..])
  }

  lemma {:induction false} OpensThere(s: string)
    requires FindOpen(s) < |s|
    ensures s[FindOpen(s)..][..2] == "${"
  {
    if FindOpen(s) > 0 {
      OpensThere(s[1..]);
      assert s[FindOpen(s)..] == s[1..][FindOpen(s[1..])..];
    } else {
      assert s[0..] == s;
    }
  }

  /** Index of the first `}`, or `|s|`. */
  function FindClose(s: string): (i: nat)
    ensures i <= |s|
  {
    if s == [] || s[0] == '}' then 0 else 1 + FindClose(s[1..])
  }

  lemma {:induction false} ClosesThere(s: string)
    ensures '}' !in s[..FindClose(s)]
    ensures FindClose(s) < |s| ==> s[FindClose(s)] == '}'
  {
    if s != [] && s[0] != '}' {
      ClosesThere(s[1..]);
      var i := FindClose(s[1..]);
      assert s[..i + 1] == [s[0]] + s[1..][..i];
    }
  }

  const SUFFIX: string := ".port"

  /** The service a placeholder body names, when the body ends in `.port`. */
  function PortRef(body: string): Option<string>
  {
    var n := |body| - |SUFFIX|;
    if n >= 0 && body[n..] == SUFFIX then Some(body[..n]) else None
  }

  predicate Resolves(body: string, ports: PortMap)
  {
    PortRef(body).Some? && PortRef(body).value in ports
  }

  function Braced(body: string): string { "${" + body + "}" }

  function Replacement(body: string, ports: PortMap): string
  {
    if Resolves(body, ports) then Print(ports[PortRef(body).value]) else Braced(body)
  }

  /** A string cut around its first closed placeholder. */
  datatype Cut = Uncut | Cut(text: string, body: string, rest: string)

  function FirstRef(s: string): (c: Cut)
    ensures c.Cut? ==> |c.rest| < |s|
  {
    var start := FindOpen(s);
    if start == |s| then Uncut else CutTail(s[..start], s[start..])
  }

  /** Cut at the `${` that starts `tail`. */
  function CutTail(text: string, tail: string): (c: Cut)
    requires |tail| >= 2
    ensures c.Cut? ==> |c.rest| < |tail|
  {
    var end := FindClose(tail);
    if end == |tail| || end < 2 then Uncut else Cut(text, tail[2..end], tail[end + 1..])
  }

  lemma ClosesAfterOpen(tail: string)
    requires |tail| >= 2 && tail[..2] == "${"
    ensures FindClose(tail) >= 2
  {
    ClosesThere(tail);
    assert tail[0] == tail[..2][0] && tail[1] == tail[..2][1];
  }

  /** The string with every resolvable placeholder replaced by its port. */
  function Interpolated(s: string, ports: PortMap): string
    decreases |s|
  {
    match FirstRef(s)
    case Uncut => s
    case Cut(text, body, rest) => text + Replacement(body, ports) + Interpolated(rest, ports)
  }

  /** Bodies of the closed placeholders, left to right. */
  function Refs(s: string): seq<string>
    decreases |s|
  {
    match FirstRef(s)
    case Uncut => []
    case Cut(_, body, rest) => [body] + Refs(rest)
  }

  /** The bodies among `refs` that `ports` cannot resolve. */
  function Unresolvable(refs: seq<string>, ports: PortMap): seq<string>
  {
    if refs == [] then []
    else if Resolves(refs[0], ports) then Unresolvable(refs[1..], ports)
    else [refs[0]] + Unresolvable(refs[1..], ports)
  }

  /** The service named by the first `.port` body that `ports` cannot resolve. */
  function FirstMissing(refs: seq<string>, ports: PortMap): Option<string>
  {
    if refs == [] then None
    else if PortRef(refs[0]).Some? && PortRef(refs[0]).value !in ports then PortRef(refs[0])
    else FirstMissing(refs[1..], ports)
  }

  function FirstMissingIn(values: seq<string>, ports: PortMap): Option<string>
  {
    if values == [] then None
    else
      var here := FirstMissing(Refs(values[0]), ports);
      if here.Some? then here else FirstMissingIn(values[1..], ports)
  }

  /** No closed `.port` placeholder is left for a scan to find. */
  predicate PortFree(s: string)
  {
    forall body <- Refs(s) :: PortRef(body).None?
  }

  // ----- the two loops of the source -----

  method Interpolate(s: string, ports: PortMap) returns (result: string)
    ensures result == Interpolated(s, ports)
  {
    result := "";
    var rest := s;
    while FindOpen(rest) < |rest|
      invariant result + Interpolated(rest, ports) == Interpolated(s, ports)
      decreases |rest|
    {
      var start := FindOpen(rest);
      var tail := rest[start..];
      var end := FindClose(tail);
      ghost var was, done := rest, result;
      LoopStep(rest, start, tail, end, ports);
      if end == |tail| {
        result := result + rest[..start] + tail;
        Associate(done, rest[..start], tail);
        return;
      }
      var placeholder := tail[2..end];
      result := result + rest[..start];
      if Resolves(placeholder, ports) {
        result := result + Print(ports[PortRef(placeholder).value]);
      } else {
        result := result + tail[..end + 1];
      }
      rest := tail[end + 1..];
      Regroup(done, was[..start], Replacement(placeholder, ports), Interpolated(rest, ports));
    }
    result := result + rest;
  }

  /** What one turn of that loop finds. */
  lemma LoopStep(rest: string, start: nat, tail: string, end: nat, ports: PortMap)
    requires start == FindOpen(rest) < |rest| && tail == rest[start..] && end == FindClose(tail)
    ensures 2 <= end <= |tail|
    ensures end == |tail| ==> Interpolated(rest, ports) == rest == rest[..start] + tail
    ensures end < |tail| ==>
              var body := tail[2..end];
              && Interpolated(rest, ports) == rest[..start] + Replacement(body, ports) + Interpolated(tail[end + 1..], ports)
              && (!Resolves(body, ports) ==> Replacement(body, ports) == tail[..end + 1])
  {
    OpensThere(rest);
    ClosesBehind(rest, start, tail);
    if end < |tail| {
      TailParts(rest[..start], tail);
    }
  }

  method UnresolvedPortRef(values: seq<string>, ports: PortMap) returns (dep: Option<string>)
    ensures dep == FirstMissingIn(values, ports)
  {
    for n := 0 to |values|
      invariant FirstMissingIn(values, ports) == FirstMissingIn(values[n..], ports)
    {
      dep := MissingInValue(values[n], ports);
      if dep.Some? {
        return;
      }
      assert values[n..][1..] == values[n + 1..];
    }
    return None;
  }

  /** The inner loop: one value, scanned left to right. */
  method MissingInValue(value: string, ports: PortMap) returns (dep: Option<string>)
    ensures dep == FirstMissing(Refs(value), ports)
  {
    var rest := value;
    while FindOpen(rest) < |rest|
      invariant FirstMissing(Refs(value), ports) == FirstMissing(Refs(rest), ports)
      decreases |rest|
    {
      var pos := FindOpen(rest);
      var tail := rest[pos..];
      var end := FindClose(tail);
      ScanStep(rest, pos, tail, end, ports);
      if end == |tail| {
        break;
      }
      var placeholder := tail[2..end];
      if PortRef(placeholder).Some? && PortRef(placeholder).value !in ports {
        return PortRef(placeholder);
      }
      rest := tail[end + 1..];
    }
    return None;
  }

  /** What one turn of that loop finds. */
  lemma ScanStep(rest: string, pos: nat, tail: string, end: nat, ports: PortMap)
    requires pos == FindOpen(rest) < |rest| && tail == rest[pos..] && end == FindClose(tail)
    ensures 2 <= end <= |tail|
    ensures end == |tail| ==> FirstMissing(Refs(rest), ports).None?
    ensures end < |tail| ==>
              FirstMissing(Refs(rest), ports) ==
              if PortRef(tail[2..end]).Some? && PortRef(tail[2..end]).value !in ports then PortRef(tail[2..end])
              else FirstMissing(Refs(tail[end + 1..]), ports)
  {
    RefsStep(rest, pos, tail, end);
    if end < |tail| {
      FirstMissingStep(tail[2..end], Refs(tail[end + 1..]), ports);
    }
  }

  lemma RefsStep(rest: string, pos: nat, tail: string, end: nat)
    requires pos == FindOpen(rest) < |rest| && tail == rest[pos..] && end == FindClose(tail)
    ensures 2 <= end <= |tail|
    ensures Refs(rest) == if end == |tail| then [] else [tail[2..end]] + Refs(tail[end + 1..])
  {
    ClosesBehind(rest, pos, tail);
    FirstRefIs(rest, pos);
    CutTailIs(rest[..pos], tail, end);
    RefsOfCut(rest, CutTail(rest[..pos], tail));
  }

  lemma FirstRefIs(s: string, pos: nat)
    requires pos == FindOpen(s) < |s|
    ensures FirstRef(s) == CutTail(s[..pos], s[pos..])
  {
  }

  lemma CutTailIs(text: string, tail: string, end: nat)
    requires |tail| >= 2 && end == FindClose(tail) >= 2
    ensures CutTail(text, tail) == if end == |tail| then Uncut else Cut(text, tail[2..end], tail[end + 1..])
  {
  }

  lemma ClosesBehind(rest: string, pos: nat, tail: string)
    requires pos == FindOpen(rest) < |rest| && tail == rest[pos..]
    ensures FindClose(tail) >= 2
  {
    OpensThere(rest);
    ClosesAfterOpen(tail);
  }

  lemma RefsOfCut(s: string, c: Cut)
    requires FirstRef(s) == c
    ensures Refs(s) == if c.Uncut? then [] else [c.body] + Refs(c.rest)
  {
  }

  lemma FirstMissingStep(body: string, refs: seq<string>, ports: PortMap)
    ensures FirstMissing([body] + refs, ports) ==
            if PortRef(body).Some? && PortRef(body).value !in ports then PortRef(body) else FirstMissing(refs, ports)
  {}

  /** The left-nested concatenation a loop builds, regrouped. */
  lemma Regroup(a: string, b: string, c: string, d: string)
    ensures a + (b + c + d) == a + b + c + d
  {}

  // ----- how a scan sees concatenated text -----

  /** `p` holds no opener and does not form one with what follows. */
  predicate Plain(p: string, q: string)
  {
    FindOpen(p) == |p| && (p == [] || q == [] || p[|p| - 1] != '$' || q[0] != '{')
  }

  /** Plain text does not change where the scan finds the next opener. */
  lemma {:induction false} FindOpenAfter(p: string, q: string)
    requires Plain(p, q)
    ensures FindOpen(p + q) == |p| + FindOpen(q)
  {
    if p == [] {
      assert p + q == q;
    } else {
      assert (p + q)[1..] == p[1..] + q;
      if |p| >= 2 {
        FindOpenAfter(p[1..], q);
      } else {
        assert p[1..] + q == q;
      }
    }
  }

  lemma {:induction false} FindCloseAt(s: string, q: string)
    requires '}' !in s
    ensures FindClose(s + "}" + q) == |s|
  {
    if s == [] {
      assert s + "}" + q == "}" + q;
    } else {
      assert (s + "}" + q)[1..] == s[1..] + "}" + q;
      FindCloseAt(s[1..], q);
    }
  }

  /** A string built around a placeholder is cut back into its parts. */
  lemma CutOf(text: string, body: string, rest: string)
    requires FindOpen(text) == |text| && '}' !in body
    ensures FirstRef(text + (Braced(body) + rest)) == Cut(text, body, rest)
  {
    var tail := Braced(body) + rest;
    FindOpenAfter(text, tail);
    var s := text + tail;
    assert s[..|text|] == text && s[|text|..] == tail;
    CutOfTail(text, body, rest);
  }

  lemma CutOfTail(text: string, body: string, rest: string)
    requires '}' !in body
    ensures CutTail(text, Braced(body) + rest) == Cut(text, body, rest)
  {
    var tail := Braced(body) + rest;
    assert tail == ("${" + body) + "}" + rest;
    FindCloseAt("${" + body, rest);
    assert tail[2..|body| + 2] == body && tail[|body| + 3..] == rest;
  }

  /** And every cut comes from such a string. */
  lemma CutParts(s: string)
    requires FirstRef(s).Cut?
    ensures var c := FirstRef(s);
            FindOpen(c.text) == |c.text| && '}' !in c.body && s == c.text + (Braced(c.body) + c.rest)
  {
    PrefixHasNoOpen(s);
    OpensThere(s);
    var start := FindOpen(s);
    TailParts(s[..start], s[start..]);
    assert s == s[..start] + s[start..];
  }

  lemma TailParts(text: string, tail: string)
    requires |tail| >= 2 && tail[..2] == "${" && CutTail(text, tail).Cut?
    ensures var c := CutTail(text, tail); '}' !in c.body && tail == Braced(c.body) + c.rest
    ensures tail[..FindClose(tail) + 1] == Braced(CutTail(text, tail).body)
  {
    ClosesThere(tail);
    PartsAround(tail, tail[..2], FindClose(tail));
  }

  /** A string around its first `}`. */
  lemma PartsAround(tail: string, open: string, end: nat)
    requires 2 <= end < |tail| && tail[..2] == open && tail[end] == '}' && '}' !in tail[..end]
    ensures '}' !in tail[2..end]
    ensures tail[..end + 1] == open + tail[2..end] + "}"
    ensures tail == open + tail[2..end] + "}" + tail[end + 1..]
  {
    assert tail[2..end] == tail[..end][2..];
    assert tail[..end] == open + tail[2..end];
    assert tail[..end + 1] == tail[..end] + [tail[end]];
    assert tail == tail[..end + 1] + tail[end + 1..];
  }

  lemma {:induction false} NoOpenIn(s: string)
    requires '$' !in s
    ensures FindOpen(s) == |s|
  {
    if |s| >= 2 {
      NoOpenIn(s[1..]);
    }
  }

  lemma {:induction false} PrefixHasNoOpen(s: string)
    ensures FindOpen(s[..FindOpen(s)]) == FindOpen(s)
  {
    var i := FindOpen(s);
    if i == |s| {
      assert s[..i] == s;
    } else if i > 0 {
      PrefixHasNoOpen(s[1..]);
      assert s[1..][..i - 1] == s[..i][1..];
    }
  }

  lemma RefsAfterText(p: string, q: string)
    requires Plain(p, q)
    ensures Refs(p + q) == Refs(q)
  {
    if FirstRef(q).Cut? {
      var Cut(text, body, rest) := FirstRef(q);
      CutParts(q);
      PlainPart(p, text, Braced(body) + rest);
      CutOf(p + text, body, rest);
      Associate(p, text, Braced(body) + rest);
    } else {
      UncutAfterText(p, q);
    }
  }

  lemma PlainPart(p: string, text: string, tail: string)
    requires Plain(p, text + tail) && FindOpen(text) == |text|
    ensures FindOpen(p + text) == |p + text|
  {
    if text != [] {
      assert (text + tail)[0] == text[0];
    }
    FindOpenAfter(p, text);
  }

  lemma UncutAfterText(p: string, q: string)
    requires Plain(p, q) && FirstRef(q) == Uncut
    ensures FirstRef(p + q) == Uncut
  {
    FindOpenAfter(p, q);
    assert (p + q)[|p| + FindOpen(q)..] == q[FindOpen(q)..];
  }

  /** Digits after plain text leave plain text, whatever follows them. */
  lemma DigitsArePlain(text: string, n: nat, q: string)
    requires FindOpen(text) == |text|
    ensures Plain(text + Print(n), q)
  {
    var digits := Print(n);
    NoOpenIn(digits);
    assert IsDigit(digits[0]) && IsDigit(digits[|digits| - 1]);
    FindOpenAfter(text, digits);
    assert (text + digits)[|text + digits| - 1] == digits[|digits| - 1];
  }

  // ----- main results -----

  /**
   * Interpolation removes exactly the placeholders it resolves: a second scan
   * sees the unresolved ones, in order, and no placeholder it created.
   */
  lemma {:induction false} InterpolatedRefs(s: string, ports: PortMap)
    ensures Refs(Interpolated(s, ports)) == Unresolvable(Refs(s), ports)
    decreases |s|
  {
    if FirstRef(s).Cut? {
      var Cut(text, body, rest) := FirstRef(s);
      CutParts(s);
      InterpolatedRefs(rest, ports);
      RefsAfterReplacement(text, body, Interpolated(rest, ports), ports);
    }
  }

  lemma RefsAfterReplacement(text: string, body: string, out: string, ports: PortMap)
    requires FindOpen(text) == |text| && '}' !in body
    ensures Refs(text + Replacement(body, ports) + out) ==
            (if Resolves(body, ports) then [] else [body]) + Refs(out)
  {
    if Resolves(body, ports) {
      RefsAfterDigits(text, ports[PortRef(body).value], out);
    } else {
      RefsAroundRef(text, body, out);
    }
  }

  lemma RefsAfterDigits(text: string, n: nat, out: string)
    requires FindOpen(text) == |text|
    ensures Refs(text + Print(n) + out) == Refs(out)
  {
    DigitsArePlain(text, n, out);
    RefsAfterText(text + Print(n), out);
  }

  lemma RefsAroundRef(text: string, body: string, out: string)
    requires FindOpen(text) == |text| && '}' !in body
    ensures Refs(text + Braced(body) + out) == [body] + Refs(out)
  {
    CutOf(text, body, out);
    Associate(text, Braced(body), out);
  }

  lemma {:induction false} NothingToReplace(s: string, ports: PortMap)
    requires forall body <- Refs(s) :: !Resolves(body, ports)
    ensures Interpolated(s, ports) == s
    decreases |s|
  {
    if FirstRef(s).Cut? {
      var Cut(text, body, rest) := FirstRef(s);
      CutParts(s);
      var refs := Refs(rest);
      assert Refs(s) == [body] + refs;
      assert ([body] + refs)[0] == body && forall b <- refs :: b in [body] + refs;
      NothingToReplace(rest, ports);
      Associate(text, Braced(body), rest);
    }
  }

  function AllBraced(bodies: seq<string>): (braced: seq<string>)
    ensures |braced| == |bodies| && forall i | 0 <= i < |bodies| :: braced[i] == Braced(bodies[i])
  {
    seq(|bodies|, i requires 0 <= i < |bodies| => Braced(bodies[i]))
  }

  lemma PortRefIs(body: string, name: string)
    ensures PortRef(body) == Some(name) <==> body == name + ".port"
  {
    var n := |body| - |SUFFIX|;
    if n >= 0 && body[n..] == SUFFIX {
      assert body == body[..n] + SUFFIX;
    }
    if body == name + ".port" {
      assert body[|name|..] == SUFFIX && body[..|name|] == name;
    }
  }

  /** What a placeholder becomes: the number of the named service's port, or what it was. */
  predicate Becomes(body: string, put: string, ports: PortMap)
  {
    && (forall name <- ports :: body == name + ".port" ==> Spells(put, ports[name]))
    && ((forall name <- ports :: body != name + ".port") ==> put == "${" + body + "}")
  }

  lemma ReplacementBecomes(body: string, ports: PortMap)
    ensures Becomes(body, Replacement(body, ports), ports)
  {
    forall name <- ports
      ensures PortRef(body) == Some(name) <==> body == name + ".port"
    {
      PortRefIs(body, name);
    }
    if Resolves(body, ports) {
      ValueOfPrint(ports[PortRef(body).value]);
    }
  }

  /** A reading of `s` and of what it becomes, around its placeholders. */
  predicate Woven(s: string, out: string, refs: seq<string>, ports: PortMap, texts: seq<string>, put: seq<string>)
  {
    && |texts| == |put| + 1 && |put| == |refs|
    && s == Weave(texts, AllBraced(refs), 0) && out == Weave(texts, put, 0)
    && forall i | 0 <= i < |put| :: Becomes(refs[i], put[i], ports)
  }

  lemma WovenMore(text: string, body: string, s: string, out: string, refs: seq<string>, ports: PortMap,
                  texts: seq<string>, put: seq<string>)
    requires Woven(s, out, refs, ports, texts, put)
    ensures Woven(text + (Braced(body) + s), text + Replacement(body, ports) + out, [body] + refs, ports,
                  [text] + texts, [Replacement(body, ports)] + put)
  {
    assert AllBraced([body] + refs) == [Braced(body)] + AllBraced(refs);
    WeaveMore(text, Braced(body), texts, AllBraced(refs));
    WeaveMore(text, Replacement(body, ports), texts, put);
    Associate(text, Braced(body), s);
    ReplacementBecomes(body, ports);
  }

  lemma InterpolatedCut(s: string, ports: PortMap)
    ensures FirstRef(s).Uncut? ==> Interpolated(s, ports) == s && Refs(s) == []
    ensures FirstRef(s).Cut? ==>
              var Cut(text, body, rest) := FirstRef(s);
              && Interpolated(s, ports) == text + Replacement(body, ports) + Interpolated(rest, ports)
              && Refs(s) == [body] + Refs(rest) && s == text + (Braced(body) + rest)
  {
    if FirstRef(s).Cut? {
      CutParts(s);
    }
  }

  /**
   * Interpolation keeps the text around the closed placeholders, and puts in
   * place of each one that names a service with a port the number of that port.
   */
  lemma {:induction false} InterpolationPutsIn(s: string, ports: PortMap) returns (texts: seq<string>, put: seq<string>)
    ensures Woven(s, Interpolated(s, ports), Refs(s), ports, texts, put)
    decreases |s|
  {
    InterpolatedCut(s, ports);
    if FirstRef(s).Uncut? {
      texts, put := [s], [];
    } else {
      var Cut(text, body, rest) := FirstRef(s);
      texts, put := InterpolationPutsIn(rest, ports);
      WovenMore(text, body, rest, Interpolated(rest, ports), Refs(rest), ports, texts, put);
      texts, put := [text] + texts, [Replacement(body, ports)] + put;
    }
  }

  lemma {:induction false} UnresolvableIs(refs: seq<string>, ports: PortMap)
    ensures forall body :: body in Unresolvable(refs, ports) <==> body in refs && !Resolves(body, ports)
    ensures FirstMissing(Unresolvable(refs, ports), ports) == FirstMissing(refs, ports)
    ensures FirstMissing(refs, ports).None? <==>
            forall body <- refs :: PortRef(body).Some? ==> PortRef(body).value in ports
  {
    if refs != [] {
      UnresolvableIs(refs[1..], ports);
      assert refs == [refs[0]] + refs[1..];
    }
  }

  /** `dep` is named by the first placeholder of the text that names a service without a port. */
  ghost predicate Misses(text: string, ports: PortMap, dep: string)
  {
    dep !in ports
    && exists i | 0 <= i < |Refs(text)| :: Refs(text)[i] == dep + ".port" && NoneUnnamed(Refs(text)[..i], ports)
  }

  ghost predicate NoneUnnamed(bodies: seq<string>, ports: PortMap)
  {
    forall body, name | body in bodies && body == name + ".port" :: name in ports
  }

  lemma UnnamedIs(body: string, ports: PortMap)
    ensures NoneUnnamed([body], ports) <==> !(PortRef(body).Some? && PortRef(body).value !in ports)
  {
    forall name: string
      ensures PortRef(body) == Some(name) <==> body == name + ".port"
    {
      PortRefIs(body, name);
    }
    assert body in [body];
    if PortRef(body).Some? {
      assert body == PortRef(body).value + ".port";
    }
  }

  lemma NoneUnnamedInBoth(a: seq<string>, b: seq<string>, ports: PortMap)
    ensures NoneUnnamed(a + b, ports) <==> NoneUnnamed(a, ports) && NoneUnnamed(b, ports)
  {
    assert forall body :: body in a + b <==> body in a || body in b;
  }

  lemma {:induction false} FirstMissingIs(refs: seq<string>, ports: PortMap)
    ensures FirstMissing(refs, ports).None? <==> NoneUnnamed(refs, ports)
    ensures FirstMissing(refs, ports).Some? ==>
              var dep := FirstMissing(refs, ports).value;
              dep !in ports && exists i | 0 <= i < |refs| :: refs[i] == dep + ".port" && NoneUnnamed(refs[..i], ports)
  {
    if refs != [] {
      var first, rest := refs[0], refs[1..];
      assert refs == [first] + rest;
      UnnamedIs(first, ports);
      NoneUnnamedInBoth([first], rest, ports);
      if PortRef(first).Some? && PortRef(first).value !in ports {
        PortRefIs(first, PortRef(first).value);
        assert refs[..0] == [];
      } else {
        FirstMissingIs(rest, ports);
        if FirstMissing(rest, ports).Some? {
          var i :| 0 <= i < |rest| && rest[i] == FirstMissing(rest, ports).value + ".port" && NoneUnnamed(rest[..i], ports);
          assert refs[..i + 1] == [first] + rest[..i] && refs[i + 1] == rest[i];
          NoneUnnamedInBoth([first], rest[..i], ports);
        }
      }
    }
  }

  /** The check on an interpolated text speaks of the text as it was given. */
  lemma MissingIsNamed(text: string, ports: PortMap)
    ensures var missing := FirstMissing(Refs(Interpolated(text, ports)), ports);
            && (missing.None? <==> NoneUnnamed(Refs(text), ports))
            && (missing.Some? ==> Misses(text, ports, missing.value))
  {
    ScannersAgree(text, ports);
    FirstMissingIs(Refs(text), ports);
  }

  lemma InterpolationIsIdempotent(s: string, ports: PortMap)
    ensures Interpolated(Interpolated(s, ports), ports) == Interpolated(s, ports)
  {
    InterpolatedRefs(s, ports);
    UnresolvableIs(Refs(s), ports);
    NothingToReplace(Interpolated(s, ports), ports);
  }

  /**
   * The two scanners agree on every string: the unresolved reference is the
   * same before and after interpolation, and there is none exactly when no
   * closed `.port` placeholder survived.
   */
  lemma ScannersAgree(s: string, ports: PortMap)
    ensures FirstMissing(Refs(Interpolated(s, ports)), ports) == FirstMissing(Refs(s), ports)
    ensures FirstMissing(Refs(s), ports).None? <==> PortFree(Interpolated(s, ports))
  {
    InterpolatedRefs(s, ports);
    UnresolvableIs(Refs(s), ports);
    UnresolvableIs(Unresolvable(Refs(s), ports), ports);
  }

  lemma {:induction false} NoneMissingIn(values: seq<string>, ports: PortMap)
    ensures FirstMissingIn(values, ports).None? <==> forall v <- values :: FirstMissing(Refs(v), ports).None?
  {
    if values != [] {
      var rest := values[1..];
      NoneMissingIn(rest, ports);
      assert values[0] in values;
      assert forall v <- rest :: v in values;
      assert forall v <- values :: v == values[0] || v in rest;
    }
  }

  /** The check over several interpolated values passes exactly when each is free of port placeholders. */
  lemma ValuesPass(values: seq<string>, out: seq<string>, ports: PortMap)
    requires |out| == |values|
    requires forall i | 0 <= i < |values| :: out[i] == Interpolated(values[i], ports)
    ensures FirstMissingIn(out, ports).None? <==> forall v <- out :: PortFree(v)
  {
    NoneMissingIn(out, ports);
    forall v <- out
      ensures FirstMissing(Refs(v), ports).None? <==> PortFree(v)
    {
      var i :| 0 <= i < |out| && out[i] == v;
      ScannersAgree(values[i], ports);
    }
  }
}
