/** What a template says: which bodies are names, and what a template made of plain texts and names renders to. */
module TemplateMeaning {
  import opened Basics
  import Utf8
  import opened Template

  predicate Blank(s: string) { forall c <- s :: Utf8.IsSpace(c) }

  /** A run of letters, digits and underscores. */
  predicate Word(s: string)
  {
    s != "" && forall c <- s :: 'a' <= c <= 'z' || 'A' <= c <= 'Z' || '0' <= c <= '9' || c == '_'
  }

  /** The name, with blanks before and behind it or not. */
  ghost predicate Spells(body: string, name: string)
  {
    Word(name) && exists u, v :: Blank(u) && Blank(v) && body == u + name + v
  }

  lemma WordIsTight(s: string)
    requires Word(s)
    ensures IsIdent(s) && !Utf8.IsSpace(s[0]) && !Utf8.IsSpace(s[|s| - 1])
  {
    assert s[0] in s && s[|s| - 1] in s;
    assert forall i | 0 <= i < |s| :: s[i] in s;
  }

  lemma {:induction false} TrimEndDrops(s: string, v: string)
    requires Blank(v) && s != "" && !Utf8.IsSpace(s[|s| - 1])
    ensures Utf8.TrimEnd(s + v) == s
    decreases |v|
  {
    if v == "" {
      assert s + v == s;
    } else {
      var w := v[..|v| - 1];
      assert (s + v)[..|s + v| - 1] == s + w;
      assert v[|v| - 1] in v && forall c <- w :: c in v;
      TrimEndDrops(s, w);
    }
  }

  lemma {:induction false} TrimStartDrops(u: string, s: string)
    requires Blank(u) && s != "" && !Utf8.IsSpace(s[0])
    ensures Utf8.TrimStart(u + s) == s
    decreases |u|
  {
    if u == "" {
      assert u + s == s;
    } else {
      assert (u + s)[1..] == u[1..] + s;
      assert u[0] in u && forall c <- u[1..] :: c in u;
      TrimStartDrops(u[1..], s);
    }
  }

  lemma TrimDrops(u: string, s: string, v: string)
    requires Blank(u) && Blank(v) && s != "" && !Utf8.IsSpace(s[0]) && !Utf8.IsSpace(s[|s| - 1])
    ensures Utf8.Trim(u + s + v) == s
  {
    TrimEndDrops(u + s, v);
    TrimStartDrops(u, s);
  }

  lemma {:induction false} TrimEndLeaves(s: string)
    ensures Blank(s[|Utf8.TrimEnd(s)|..])
    decreases |s|
  {
    if s != "" && Utf8.IsSpace(s[|s| - 1]) {
      var w := s[..|s| - 1];
      TrimEndLeaves(w);
      var n := |Utf8.TrimEnd(w)|;
      assert s[n..] == w[n..] + [s[|s| - 1]];
    }
  }

  lemma {:induction false} TrimStartLeaves(s: string)
    ensures Blank(s[..|s| - |Utf8.TrimStart(s)|])
    decreases |s|
  {
    if s != "" && Utf8.IsSpace(s[0]) {
      var w := s[1..];
      TrimStartLeaves(w);
      var n := |w| - |Utf8.TrimStart(w)|;
      assert s[..n + 1] == [s[0]] + w[..n];
    }
  }

  lemma ThreeParts(s: string, a: nat, b: nat)
    requires a <= b <= |s|
    ensures s == s[..a] + s[a..b] + s[b..]
  {
  }

  lemma TrimLeaves(s: string) returns (u: string, v: string)
    ensures Blank(u) && Blank(v) && s == u + Utf8.Trim(s) + v
  {
    var w := Utf8.TrimEnd(s);
    var b := |w|;
    var a := b - |Utf8.TrimStart(w)|;
    TrimEndLeaves(s);
    TrimStartLeaves(w);
    u, v := s[..a], s[b..];
    ThreeParts(s, a, b);
    assert w == s[..b];
    assert w[..a] == s[..a] && w[a..] == s[a..b];
  }

  /** Between two positions of a template is a name exactly if a word is there, with blanks around it or not. */
  lemma NameIsWord(t: string, from: nat, to: nat, name: string)
    requires from <= to <= |t|
    ensures NameIn(t, from, to) == Some(name) <==> Spells(t[from..to], name)
  {
    var body := t[from..to];
    if NameIn(t, from, to) == Some(name) {
      var u, v := TrimLeaves(body);
      assert IsIdent(name) && Word(name);
    }
    if Spells(body, name) {
      var u, v :| Blank(u) && Blank(v) && body == u + name + v;
      WordIsTight(name);
      TrimDrops(u, name, v);
    }
  }

  // ----- a template of texts and names -----

  predicate Braceless(s: string) { '{' !in s && '}' !in s }

  lemma {:induction false} FindsAt(t: string, i: nat, c: char, k: nat)
    requires i <= k && PairAt(t, k, c) && forall m | i <= m < k :: t[m] != c
    ensures FindPair(t, i, c) == Some(k)
    decreases k - i
  {
    if i < k {
      FindsAt(t, i + 1, c, k);
    }
  }

  lemma {:induction false} FindsNone(t: string, i: nat, c: char)
    requires forall m | i <= m < |t| :: t[m] != c
    ensures FindPair(t, i, c) == None
    decreases |t| - i
  {
    if i + 1 < |t| {
      FindsNone(t, i + 1, c);
    }
  }

  function Mustache(body: string): string { "{{" + body + "}}" }

  lemma NoBraceIn(body: string, name: string)
    requires Spells(body, name)
    ensures '}' !in body
  {
    var u, v :| Blank(u) && Blank(v) && body == u + name + v;
    assert !Utf8.IsSpace('}');
    assert '}' !in u && '}' !in name && '}' !in v;
  }

  /** A template from `i` on, cut behind its first placeholder. */
  predicate CutAt(t: string, i: nat, open: nat, close: nat, text: string, body: string, rest: string)
  {
    && i <= open && open + 2 <= close && close + 2 <= |t|
    && t[i..open] == text && PairAt(t, open, '{') && t[open + 2..close] == body && PairAt(t, close, '}')
    && t[close + 2..] == rest && t[open..close + 2] == Mustache(body)
  }

  lemma Tail(t: string, i: nat, a: string, b: string)
    requires i <= |t| && t[i..] == a + b
    ensures i + |a| <= |t| && t[i..i + |a|] == a && t[i + |a|..] == b
  {
    assert t[i..][..|a|] == a && t[i..][|a|..] == b;
  }

  lemma Cuts(t: string, i: nat, text: string, body: string, rest: string)
    requires i <= |t| && t[i..] == text + Mustache(body) + rest
    ensures CutAt(t, i, i + |text|, i + |text| + 2 + |body|, text, body, rest)
  {
    var open := i + |text|;
    Associate(text, Mustache(body), rest);
    Tail(t, i, text, Mustache(body) + rest);
    Tail(t, open, Mustache(body), rest);
    var m := t[open..open + |body| + 4];
    assert m == Mustache(body);
    assert m[0] == '{' && m[1] == '{' && m[|body| + 2] == '}' && m[|body| + 3] == '}';
    assert m[2..|body| + 2] == body;
  }

  lemma OpensAt(t: string, i: nat, open: nat, close: nat, text: string, body: string, rest: string)
    requires CutAt(t, i, open, close, text, body, rest) && Braceless(text)
    ensures FindPair(t, i, '{') == Some(open)
  {
    forall m | i <= m < open
      ensures t[m] != '{'
    {
      assert t[m] == text[m - i] && text[m - i] in text;
    }
    FindsAt(t, i, '{', open);
  }

  lemma ClosesAt(t: string, i: nat, open: nat, close: nat, text: string, body: string, rest: string)
    requires CutAt(t, i, open, close, text, body, rest) && '}' !in body
    ensures FindPair(t, open + 2, '}') == Some(close)
  {
    forall m | open + 2 <= m < close
      ensures t[m] != '}'
    {
      assert t[m] == body[m - open - 2] && body[m - open - 2] in body;
    }
    FindsAt(t, open + 2, '}', close);
  }

  lemma Hits(t: string, naming: Naming, i: nat, open: nat, close: nat, name: string)
    requires FindPair(t, i, '{') == Some(open) && FindPair(t, open + 2, '}') == Some(close)
    requires naming(t, open + 2, close) == Some(name)
    ensures Spans(t, naming, i) == [Span(open, close + 2, name)] + Spans(t, naming, close + 2)
  {
  }

  /** From `i` on the template has a text without braces, a name in braces, and then the rest. */
  lemma FirstSpan(t: string, naming: Naming, i: nat, open: nat, close: nat, text: string, body: string, name: string, rest: string)
    requires CutAt(t, i, open, close, text, body, rest) && Braceless(text) && '}' !in body
    requires naming(t, open + 2, close) == Some(name)
    ensures Spans(t, naming, i) == [Span(open, close + 2, name)] + Spans(t, naming, close + 2)
  {
    OpensAt(t, i, open, close, text, body, rest);
    ClosesAt(t, i, open, close, text, body, rest);
    Hits(t, naming, i, open, close, name);
  }

  function AllMustaches(bodies: seq<string>): (all: seq<string>)
    ensures |all| == |bodies| && forall i | 0 <= i < |all| :: all[i] == Mustache(bodies[i])
  {
    seq(|bodies|, i requires 0 <= i < |bodies| => Mustache(bodies[i]))
  }

  /** A name's value, or, if it has none, the braces as they are. */
  function ValueOf(name: string, body: string, vars: Vars): string
  {
    if name in vars then vars[name] else Mustache(body)
  }

  function AllValues(names: seq<string>, bodies: seq<string>, vars: Vars): (all: seq<string>)
    requires |names| == |bodies|
    ensures |all| == |names| && forall i | 0 <= i < |all| :: all[i] == ValueOf(names[i], bodies[i], vars)
  {
    seq(|names|, i requires 0 <= i < |names| => ValueOf(names[i], bodies[i], vars))
  }

  /** Texts without braces, and names in braces between them. */
  ghost predicate Made(texts: seq<string>, names: seq<string>, bodies: seq<string>)
  {
    && |texts| == |names| + 1 && |bodies| == |names|
    && (forall text <- texts :: Braceless(text))
    && forall i | 0 <= i < |names| :: Spells(bodies[i], names[i])
  }

  /** Where the placeholders of such a template are, from the `k`-th text on, which starts at `i`. */
  function Places(i: nat, k: nat, texts: seq<string>, names: seq<string>, bodies: seq<string>): seq<Span>
    requires |texts| == |names| + 1 && |bodies| == |names| && k <= |names|
    decreases |names| - k
  {
    if k == |names| then []
    else
      var open := i + |texts[k]|;
      var end := open + |bodies[k]| + 4;
      [Span(open, end, names[k])] + Places(end, k + 1, texts, names, bodies)
  }

  /** The naming reads what spells a name as that name. */
  ghost predicate ReadsWords(t: string, naming: Naming)
  {
    forall a: nat, b: nat, name | a <= b <= |t| && Spells(t[a..b], name) :: naming(t, a, b) == Some(name)
  }

  /** The template from `i` on is made of the texts from the `k`-th on, and the bodies between them. */
  ghost predicate MadeFrom(t: string, i: nat, k: nat, texts: seq<string>, names: seq<string>, bodies: seq<string>)
  {
    && |texts| == |names| + 1 && |bodies| == |names|
    && k <= |names| && i <= |t| && t[i..] == Weave(texts, AllMustaches(bodies), k)
  }

  lemma Next(t: string, i: nat, k: nat, texts: seq<string>, names: seq<string>, bodies: seq<string>, open: nat, close: nat)
    requires MadeFrom(t, i, k, texts, names, bodies) && k < |names|
    requires open == i + |texts[k]| && close == open + 2 + |bodies[k]|
    ensures close + 2 <= |t| && CutAt(t, i, open, close, texts[k], bodies[k], t[close + 2..])
    ensures MadeFrom(t, close + 2, k + 1, texts, names, bodies)
  {
    Cuts(t, i, texts[k], bodies[k], Weave(texts, AllMustaches(bodies), k + 1));
  }

  /** A scan that finds the `k`-th placeholder behind the `k`-th text goes through them all. */
  lemma {:induction false} GoesThrough(t: string, scan: nat -> seq<Span>, i: nat, k: nat, texts: seq<string>, names: seq<string>, bodies: seq<string>)
    requires MadeFrom(t, i, k, texts, names, bodies)
    requires forall i: nat, k: nat | MadeFrom(t, i, k, texts, names, bodies) :: ScanStep(scan, i, k, texts, names, bodies)
    ensures scan(i) == Places(i, k, texts, names, bodies)
    decreases |names| - k
  {
    assert ScanStep(scan, i, k, texts, names, bodies);
    if k < |names| {
      var open := i + |texts[k]|;
      var close := open + 2 + |bodies[k]|;
      Next(t, i, k, texts, names, bodies, open, close);
      GoesThrough(t, scan, close + 2, k + 1, texts, names, bodies);
    }
  }

  predicate ScanStep(scan: nat -> seq<Span>, i: nat, k: nat, texts: seq<string>, names: seq<string>, bodies: seq<string>)
    requires |texts| == |names| + 1 && |bodies| == |names| && k <= |names|
  {
    if k == |names| then scan(i) == []
    else
      var open := i + |texts[k]|;
      var close := open + 2 + |bodies[k]|;
      scan(i) == [Span(open, close + 2, names[k])] + scan(close + 2)
  }

  ghost function Scan(t: string, naming: Naming): nat -> seq<Span> { (i: nat) => Spans(t, naming, i) }

  lemma ScanEnds(t: string, naming: Naming, i: nat, texts: seq<string>, names: seq<string>, bodies: seq<string>)
    requires Made(texts, names, bodies) && MadeFrom(t, i, |names|, texts, names, bodies)
    ensures Scan(t, naming)(i) == []
  {
    var text := texts[|names|];
    assert text in texts;
    ScansNone(t, naming, i, text);
  }

  lemma ScanGoesOn(t: string, naming: Naming, i: nat, k: nat, texts: seq<string>, names: seq<string>, bodies: seq<string>,
                   open: nat, close: nat)
    requires Made(texts, names, bodies) && MadeFrom(t, i, k, texts, names, bodies) && ReadsWords(t, naming) && k < |names|
    requires open == i + |texts[k]| && close == open + 2 + |bodies[k]|
    ensures Scan(t, naming)(i) == [Span(open, close + 2, names[k])] + Scan(t, naming)(close + 2)
  {
    Next(t, i, k, texts, names, bodies, open, close);
    assert texts[k] in texts;
    SpanOfBody(t, naming, i, open, close, texts[k], bodies[k], names[k]);
  }

  lemma ScanSteps(t: string, naming: Naming, scan: nat -> seq<Span>, i: nat, k: nat, texts: seq<string>, names: seq<string>, bodies: seq<string>)
    requires Made(texts, names, bodies) && MadeFrom(t, i, k, texts, names, bodies) && ReadsWords(t, naming) && scan == Scan(t, naming)
    ensures ScanStep(scan, i, k, texts, names, bodies)
  {
    if k == |names| {
      ScanEnds(t, naming, i, texts, names, bodies);
    } else {
      ScanGoesOn(t, naming, i, k, texts, names, bodies, i + |texts[k]|, i + |texts[k]| + 2 + |bodies[k]|);
    }
  }

  lemma ScansTo(t: string, texts: seq<string>, names: seq<string>, bodies: seq<string>)
    requires Made(texts, names, bodies) && MadeFrom(t, 0, 0, texts, names, bodies)
    ensures Placeholders(t) == Places(0, 0, texts, names, bodies)
  {
    var scan := Scan(t, NameIn);
    WordsAreRead(t);
    forall i: nat, k: nat | MadeFrom(t, i, k, texts, names, bodies)
      ensures ScanStep(scan, i, k, texts, names, bodies)
    {
      ScanSteps(t, NameIn, scan, i, k, texts, names, bodies);
    }
    GoesThrough(t, scan, 0, 0, texts, names, bodies);
  }

  lemma SpanOfBody(t: string, naming: Naming, i: nat, open: nat, close: nat, text: string, body: string, name: string)
    requires close + 2 <= |t| && CutAt(t, i, open, close, text, body, t[close + 2..]) && Braceless(text) && Spells(body, name)
    requires ReadsWords(t, naming)
    ensures Spans(t, naming, i) == [Span(open, close + 2, name)] + Spans(t, naming, close + 2)
  {
    NoBraceIn(body, name);
    assert Spells(t[open + 2..close], name);
    FirstSpan(t, naming, i, open, close, text, body, name, t[close + 2..]);
  }

  lemma ScansNone(t: string, naming: Naming, i: nat, text: string)
    requires i <= |t| && t[i..] == text && '{' !in text
    ensures Spans(t, naming, i) == []
  {
    forall m | i <= m < |t|
      ensures t[m] != '{'
    {
      assert t[m] == text[m - i] && text[m - i] in text;
    }
    FindsNone(t, i, '{');
  }

  lemma WordsAreRead(t: string)
    ensures ReadsWords(t, NameIn)
  {
    forall a: nat, b: nat, name | a <= b <= |t| && Spells(t[a..b], name)
      ensures NameIn(t, a, b) == Some(name)
    {
      NameIsWord(t, a, b, name);
    }
  }

  lemma RendersNext(t: string, i: nat, k: nat, texts: seq<string>, names: seq<string>, bodies: seq<string>, vars: Vars,
                    end: nat, more: seq<Span>)
    requires MadeFrom(t, i, k, texts, names, bodies) && k < |names| && end == i + |texts[k]| + |bodies[k]| + 4
    requires Apart(t, [Span(i + |texts[k]|, end, names[k])] + more, i)
    ensures MadeFrom(t, end, k + 1, texts, names, bodies) && Apart(t, more, end)
    ensures Rendered(t, [Span(i + |texts[k]|, end, names[k])] + more, vars, i)
            == texts[k] + ValueOf(names[k], bodies[k], vars) + Rendered(t, more, vars, end)
  {
    var open := i + |texts[k]|;
    Next(t, i, k, texts, names, bodies, open, end - 2);
    ValueIs(t, i, open, end - 2, texts[k], bodies[k], names[k], vars);
    RenderedHead(t, Span(open, end, names[k]), more, vars, i);
  }

  lemma ValueIs(t: string, i: nat, open: nat, close: nat, text: string, body: string, name: string, vars: Vars)
    requires close + 2 <= |t| && CutAt(t, i, open, close, text, body, t[close + 2..])
    ensures Value(t, Span(open, close + 2, name), vars, i) == text + ValueOf(name, body, vars)
  {
  }

  /** Text by text, what is put out from each place is what the weave is from there. */
  lemma {:induction false} Collects(out: (nat, nat) -> string, next: (nat, nat) -> nat, at: (nat, nat) -> bool,
                                    texts: seq<string>, put: seq<string>, i: nat, k: nat)
    requires |texts| == |put| + 1 && k <= |put| && at(i, k)
    requires forall i: nat, k: nat | k < |put| && at(i, k) ::
               at(next(i, k), k + 1) && out(i, k) == texts[k] + put[k] + out(next(i, k), k + 1)
    requires forall i: nat | at(i, |put|) :: out(i, |put|) == texts[|put|]
    ensures out(i, k) == Weave(texts, put, k)
    decreases |put| - k
  {
    if k < |put| {
      Collects(out, next, at, texts, put, next(i, k), k + 1);
    }
  }

  /** The place `i` is that of the `k`-th text, and the spans from there on are apart. */
  ghost predicate AtText(t: string, texts: seq<string>, names: seq<string>, bodies: seq<string>, i: nat, k: nat)
  {
    MadeFrom(t, i, k, texts, names, bodies) && Apart(t, Places(i, k, texts, names, bodies), i)
  }

  function Behind(texts: seq<string>, bodies: seq<string>, i: nat, k: nat): nat
    requires k < |bodies| < |texts|
  {
    i + |texts[k]| + |bodies[k]| + 4
  }

  ghost function Out(t: string, texts: seq<string>, names: seq<string>, bodies: seq<string>, vars: Vars, i: nat, k: nat): string
    requires AtText(t, texts, names, bodies, i, k)
  {
    Rendered(t, Places(i, k, texts, names, bodies), vars, i)
  }

  lemma RendersStep(t: string, texts: seq<string>, names: seq<string>, bodies: seq<string>, vars: Vars, i: nat, k: nat, end: nat)
    requires k < |names| && AtText(t, texts, names, bodies, i, k) && end == Behind(texts, bodies, i, k)
    ensures AtText(t, texts, names, bodies, end, k + 1)
    ensures Out(t, texts, names, bodies, vars, i, k)
            == texts[k] + ValueOf(names[k], bodies[k], vars) + Out(t, texts, names, bodies, vars, end, k + 1)
  {
    RendersNext(t, i, k, texts, names, bodies, vars, end, Places(end, k + 1, texts, names, bodies));
  }

  ghost function AtTexts(t: string, texts: seq<string>, names: seq<string>, bodies: seq<string>): (nat, nat) -> bool
  {
    (i: nat, k: nat) => AtText(t, texts, names, bodies, i, k)
  }

  function Behinds(texts: seq<string>, bodies: seq<string>): (nat, nat) -> nat
  {
    (i: nat, k: nat) => if k < |bodies| < |texts| then Behind(texts, bodies, i, k) else i
  }

  ghost function Outs(t: string, texts: seq<string>, names: seq<string>, bodies: seq<string>, vars: Vars): (nat, nat) -> string
  {
    (i: nat, k: nat) => if AtText(t, texts, names, bodies, i, k) then Out(t, texts, names, bodies, vars, i, k) else ""
  }

  lemma StepAt(t: string, texts: seq<string>, names: seq<string>, bodies: seq<string>, vars: Vars, i: nat, k: nat)
    requires |texts| == |names| + 1 && |bodies| == |names| && k < |names| && AtTexts(t, texts, names, bodies)(i, k)
    ensures var end := Behinds(texts, bodies)(i, k);
            && AtTexts(t, texts, names, bodies)(end, k + 1)
            && Outs(t, texts, names, bodies, vars)(i, k)
               == texts[k] + AllValues(names, bodies, vars)[k] + Outs(t, texts, names, bodies, vars)(end, k + 1)
  {
    RendersStep(t, texts, names, bodies, vars, i, k, Behind(texts, bodies, i, k));
  }

  lemma EndAt(t: string, texts: seq<string>, names: seq<string>, bodies: seq<string>, vars: Vars, i: nat)
    requires |texts| == |names| + 1 && |bodies| == |names| && AtTexts(t, texts, names, bodies)(i, |names|)
    ensures Outs(t, texts, names, bodies, vars)(i, |names|) == texts[|names|]
  {
  }

  lemma RendersFrom(t: string, texts: seq<string>, names: seq<string>, bodies: seq<string>, vars: Vars)
    requires |texts| == |names| + 1 && |bodies| == |names| && AtTexts(t, texts, names, bodies)(0, 0)
    ensures Outs(t, texts, names, bodies, vars)(0, 0) == Weave(texts, AllValues(names, bodies, vars), 0)
  {
    var put, at, next, out :=
      AllValues(names, bodies, vars), AtTexts(t, texts, names, bodies), Behinds(texts, bodies), Outs(t, texts, names, bodies, vars);
    forall i: nat, k: nat | k < |put| && at(i, k)
      ensures at(next(i, k), k + 1) && out(i, k) == texts[k] + put[k] + out(next(i, k), k + 1)
    {
      StepAt(t, texts, names, bodies, vars, i, k);
    }
    forall i: nat | at(i, |put|)
      ensures out(i, |put|) == texts[|put|]
    {
      EndAt(t, texts, names, bodies, vars, i);
    }
    Collects(out, next, at, texts, put, 0, 0);
  }

  lemma RenderedHead(t: string, s: Span, spans: seq<Span>, vars: Vars, last: nat)
    requires Apart(t, [s] + spans, last)
    ensures Apart(t, spans, s.end)
    ensures Rendered(t, [s] + spans, vars, last) == Value(t, s, vars, last) + Rendered(t, spans, vars, s.end)
  {
    assert ([s] + spans)[1..] == spans;
  }

  lemma Starts(t: string, texts: seq<string>, names: seq<string>, bodies: seq<string>)
    requires |texts| == |names| + 1 && |bodies| == |names| && t == Weave(texts, AllMustaches(bodies), 0)
    ensures MadeFrom(t, 0, 0, texts, names, bodies)
  {
    assert t[0..] == t;
  }

  lemma PlacesRender(t: string, texts: seq<string>, names: seq<string>, bodies: seq<string>, vars: Vars)
    requires MadeFrom(t, 0, 0, texts, names, bodies) && Apart(t, Places(0, 0, texts, names, bodies), 0)
    ensures Rendered(t, Places(0, 0, texts, names, bodies), vars, 0) == Weave(texts, AllValues(names, bodies, vars), 0)
  {
    RendersFrom(t, texts, names, bodies, vars);
    assert Outs(t, texts, names, bodies, vars)(0, 0) == Out(t, texts, names, bodies, vars, 0, 0);
  }

  /**
   * A template made of texts and names renders to the same texts with the
   * values of the names between them, whatever braces the values hold.
   */
  lemma MadeRenders(t: string, texts: seq<string>, names: seq<string>, bodies: seq<string>, vars: Vars)
    requires Made(texts, names, bodies) && t == Weave(texts, AllMustaches(bodies), 0)
    ensures Apart(t, Placeholders(t), 0)
    ensures Rendered(t, Placeholders(t), vars, 0) == Weave(texts, AllValues(names, bodies, vars), 0)
  {
    Starts(t, texts, names, bodies);
    ScansTo(t, texts, names, bodies);
    SpansAreApart(t, NameIn, 0);
    PlacesRender(t, texts, names, bodies, vars);
  }
}
