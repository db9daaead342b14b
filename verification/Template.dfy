/** The `{{name}}` templates of src/workflow_config/template.rs. */
module Template {
  import opened Basics
  import Utf8

  datatype Span = Span(start: nat, end: nat, name: string)

  predicate IsIdentChar(c: char) { 'a' <= c <= 'z' || 'A' <= c <= 'Z' || '0' <= c <= '9' || c == '_' }

  predicate IsIdent(s: string) { s != "" && forall i | 0 <= i < |s| :: IsIdentChar(s[i]) }

  predicate PairAt(t: string, i: nat, c: char) { i + 1 < |t| && t[i] == c && t[i + 1] == c }

  /** The first doubled `c` from `i` on. */
  function FindPair(t: string, i: nat, c: char): (r: Option<nat>)
    ensures r.Some? ==> i <= r.value && r.value + 1 < |t|
    decreases |t| - i
  {
    if PairAt(t, i, c) then Some(i)
    else if i + 1 >= |t| then None
    else FindPair(t, i + 1, c)
  }

  lemma {:induction false} NoPairBefore(t: string, i: nat, c: char, m: nat)
    requires i <= m && (FindPair(t, i, c).Some? ==> m < FindPair(t, i, c).value)
    ensures !PairAt(t, m, c)
    decreases |t| - i
  {
    if i < m && i + 1 < |t| {
      NoPairBefore(t, i + 1, c, m);
    }
  }

  // ----- scanning -----

  /** The name between two positions of a template, if it is one. The scan works for any such reading. */
  type Naming = (string, nat, nat) -> Option<string>

  function NameIn(t: string, from: nat, to: nat): Option<string>
  {
    if from <= to <= |t| then
      var name := Utf8.Trim(t[from..to]);
      if IsIdent(name) then Some(name) else None
    else None
  }

  /** The placeholder that starts at `p`, if one does: closed at the next braces, and holding a name. */
  function PlaceholderAt(t: string, naming: Naming, p: nat): (r: Option<Span>)
    ensures r.Some? ==> r.value.start == p && p + 4 <= r.value.end <= |t|
  {
    if !PairAt(t, p, '{') then None
    else
      match FindPair(t, p + 2, '}')
      case None => None
      case Some(close) =>
        var name := naming(t, p + 2, close);
        if name.Some? then Some(Span(p, close + 2, name.value)) else None
  }

  /** The reference: try every position, and go on behind each placeholder. */
  function Leftmost(t: string, naming: Naming, p: nat): seq<Span>
    decreases |t| - p
  {
    if p >= |t| then []
    else
      match PlaceholderAt(t, naming, p)
      case Some(span) => [span] + Leftmost(t, naming, span.end)
      case None => Leftmost(t, naming, p + 1)
  }

  /** What the scanner finds from `i` on: it resumes two characters behind braces that open nothing. */
  function Spans(t: string, naming: Naming, i: nat): seq<Span>
    decreases |t| - i
  {
    match FindPair(t, i, '{')
    case None => []
    case Some(open) =>
      match FindPair(t, open + 2, '}')
      case None => []
      case Some(close) =>
        var name := naming(t, open + 2, close);
        if name.Some? then [Span(open, close + 2, name.value)] + Spans(t, naming, close + 2) else Spans(t, naming, open + 2)
  }

  lemma HitNext(t: string, naming: Naming, i: nat, found: seq<Span>)
    requires FindPair(t, i, '{').Some? && FindPair(t, FindPair(t, i, '{').value + 2, '}').Some?
    requires var open := FindPair(t, i, '{').value;
             naming(t, open + 2, FindPair(t, open + 2, '}').value).Some?
    ensures var open := FindPair(t, i, '{').value;
            var close := FindPair(t, open + 2, '}').value;
            found + Spans(t, naming, i)
            == found + [Span(open, close + 2, naming(t, open + 2, close).value)] + Spans(t, naming, close + 2)
  {
  }

  lemma SkipNext(t: string, naming: Naming, i: nat)
    requires FindPair(t, i, '{').Some? && FindPair(t, FindPair(t, i, '{').value + 2, '}').Some?
    requires var open := FindPair(t, i, '{').value;
             naming(t, open + 2, FindPair(t, open + 2, '}').value).None?
    ensures Spans(t, naming, i) == Spans(t, naming, FindPair(t, i, '{').value + 2)
  {
  }

  method ScanPlaceholders(template: string, naming: Naming) returns (found: seq<Span>)
    ensures found == Spans(template, naming, 0)
  {
    found := ScanOn(template, naming, 0);
  }

  method ScanOn(template: string, naming: Naming, from: nat) returns (found: seq<Span>)
    ensures found == Spans(template, naming, from)
  {
    found := [];
    var i := from;
    ghost var all, rest := Spans(template, naming, from), Spans(template, naming, from);
    while true
      invariant found + rest == all && rest == Spans(template, naming, i)
      decreases |template| - i
    {
      var open := FindPair(template, i, '{');
      if open.None? {
        break;
      }
      var close := FindPair(template, open.value + 2, '}');
      if close.None? {
        break;
      }
      var name := naming(template, open.value + 2, close.value);
      if name.Some? {
        HitNext(template, naming, i, found);
        found := found + [Span(open.value, close.value + 2, name.value)];
        i := close.value + 2;
      } else {
        SkipNext(template, naming, i);
        i := open.value + 2;
      }
      rest := Spans(template, naming, i);
      if i >= |template| {
        break;
      }
    }
  }

  /** Positions without a placeholder are passed over. */
  lemma {:induction false} PassOver(t: string, naming: Naming, p: nat, q: nat)
    requires p <= q && forall m | p <= m < q :: PlaceholderAt(t, naming, m) == None
    ensures Leftmost(t, naming, p) == Leftmost(t, naming, q)
    decreases q - p
  {
    if p < q {
      PassOver(t, naming, p + 1, q);
    }
  }

  lemma NothingOpensBefore(t: string, naming: Naming, i: nat, m: nat)
    requires i <= m && (FindPair(t, i, '{').Some? ==> m < FindPair(t, i, '{').value)
    ensures PlaceholderAt(t, naming, m) == None
  {
    NoPairBefore(t, i, '{', m);
  }

  lemma {:induction false} NothingCloses(t: string, i: nat, j: nat)
    requires FindPair(t, i, '}') == None && i <= j
    ensures FindPair(t, j, '}') == None
    decreases j - i
  {
    if i < j && i + 1 < |t| {
      NothingCloses(t, i + 1, j);
    }
  }

  lemma {:induction false} FoundOpens(t: string, i: nat, c: char)
    requires FindPair(t, i, c).Some?
    ensures PairAt(t, FindPair(t, i, c).value, c)
    decreases |t| - i
  {
    if !PairAt(t, i, c) {
      FoundOpens(t, i + 1, c);
    }
  }

  // ----- exactly when the scanner finds the leftmost placeholders -----

  /** How many opening braces stand directly before `p`, none before `from` counted. */
  function Braces(t: string, from: nat, p: nat): nat
  {
    if p <= from || p > |t| || t[p - 1] != '{' then 0 else 1 + Braces(t, from, p - 1)
  }

  /** Every placeholder from `i` on has an even number of opening braces directly before it. */
  predicate Aligned(t: string, naming: Naming, i: nat)
  {
    forall p | i <= p < |t| && PlaceholderAt(t, naming, p).Some? :: Braces(t, i, p) % 2 == 0
  }

  /** No name is read from a text with an opening brace in it. */
  ghost predicate Braceless(naming: Naming)
  {
    forall t: string, a: nat, b: nat, k | a <= k < b <= |t| && t[k] == '{' :: naming(t, a, b) == None
  }

  /** Counting further back adds the braces before `from` only if the count reaches it. */
  lemma {:induction false} BracesFurther(t: string, i: nat, from: nat, p: nat)
    requires i <= from <= p <= |t|
    ensures Braces(t, from, p) <= p - from
    ensures Braces(t, i, p) == Braces(t, from, p) + if Braces(t, from, p) == p - from then Braces(t, i, from) else 0
    decreases p
  {
    if from < p {
      BracesFurther(t, i, from, p - 1);
    }
  }

  /** The scanner opens at the first pair, which nothing but an even number of braces precedes. */
  lemma OpensFresh(t: string, i: nat)
    requires FindPair(t, i, '{').Some?
    ensures var open := FindPair(t, i, '{').value;
            PairAt(t, open, '{') && Braces(t, i, open) == 0
  {
    FoundOpens(t, i, '{');
    var open := FindPair(t, i, '{').value;
    if open > i {
      NoPairBefore(t, i, '{', open - 1);
    }
  }

  /** Where nothing opens or closes there is no placeholder. */
  lemma NothingThere(t: string, naming: Naming, i: nat)
    requires FindPair(t, i, '{').Some? ==> FindPair(t, FindPair(t, i, '{').value + 2, '}').None?
    ensures forall m | i <= m :: PlaceholderAt(t, naming, m) == None
  {
    forall m | i <= m
      ensures PlaceholderAt(t, naming, m) == None
    {
      var open := FindPair(t, i, '{');
      if open.Some? && open.value <= m {
        NothingCloses(t, open.value + 2, m + 2);
      } else {
        NothingOpensBefore(t, naming, i, m);
      }
    }
  }

  /** No placeholder starts inside another. */
  lemma NoneInside(t: string, naming: Naming, open: nat, m: nat)
    requires Braceless(naming) && PlaceholderAt(t, naming, open).Some?
    requires open < m < PlaceholderAt(t, naming, open).value.end
    ensures PlaceholderAt(t, naming, m) == None
  {
    var close := PlaceholderAt(t, naming, open).value.end - 2;
    FoundOpens(t, open + 2, '}');
    assert forall k | open + 2 <= k < close :: t[k] != '{';
    var q := if m == open + 1 then m + 1 else m;
    assert t[q] != '{';
  }

  lemma {:induction false} LaterStarts(t: string, naming: Naming, i: nat)
    ensures Spans(t, naming, i) != [] ==> Spans(t, naming, i)[0].start >= i
    decreases |t| - i
  {
    var open := FindPair(t, i, '{');
    if open.Some? {
      LaterStarts(t, naming, open.value + 2);
    }
  }

  /** Behind a placeholder, which ends in closing braces, counting starts afresh. */
  lemma AlignedBehind(t: string, naming: Naming, i: nat, open: nat)
    requires Braceless(naming) && FindPair(t, i, '{') == Some(open) && PlaceholderAt(t, naming, open).Some?
    ensures Aligned(t, naming, i) <==> Aligned(t, naming, PlaceholderAt(t, naming, open).value.end)
  {
    var end := PlaceholderAt(t, naming, open).value.end;
    OpensFresh(t, i);
    FoundOpens(t, open + 2, '}');
    assert Braces(t, i, end) == 0;
    forall p | end <= p < |t|
      ensures Braces(t, i, p) == Braces(t, end, p)
    {
      BracesFurther(t, i, end, p);
    }
    forall p | i <= p < end && p != open
      ensures PlaceholderAt(t, naming, p) == None
    {
      if p < open {
        NothingOpensBefore(t, naming, i, p);
      } else {
        NoneInside(t, naming, open, p);
      }
    }
  }

  /** Past a pair that opens nothing, the parity stays. */
  lemma AlignedPast(t: string, naming: Naming, i: nat, open: nat)
    requires FindPair(t, i, '{') == Some(open)
    requires PlaceholderAt(t, naming, open).None? && PlaceholderAt(t, naming, open + 1).None?
    ensures Aligned(t, naming, i) <==> Aligned(t, naming, open + 2)
  {
    OpensFresh(t, i);
    assert Braces(t, i, open + 1) == 1 && Braces(t, i, open + 2) == 2;
    forall p | open + 2 <= p < |t|
      ensures Braces(t, i, p) % 2 == Braces(t, open + 2, p) % 2
    {
      BracesFurther(t, i, open + 2, p);
    }
    forall p | i <= p < open
      ensures PlaceholderAt(t, naming, p) == None
    {
      NothingOpensBefore(t, naming, i, p);
    }
  }

  /** The scanner finds exactly the leftmost placeholders if and only if each has an even number of braces before it. */
  lemma {:induction false} ScanIsLeftmostFrom(t: string, naming: Naming, i: nat)
    requires Braceless(naming)
    ensures Spans(t, naming, i) == Leftmost(t, naming, i) <==> Aligned(t, naming, i)
    decreases |t| - i
  {
    var open := FindPair(t, i, '{');
    if open.None? || FindPair(t, open.value + 2, '}').None? {
      NothingThere(t, naming, i);
      PassOver(t, naming, i, if i < |t| then |t| else i);
    } else {
      ScanFrom(t, naming, i, open.value);
    }
  }

  lemma {:induction false} ScanFrom(t: string, naming: Naming, i: nat, open: nat)
    requires Braceless(naming) && FindPair(t, i, '{') == Some(open) && FindPair(t, open + 2, '}').Some?
    ensures Spans(t, naming, i) == Leftmost(t, naming, i) <==> Aligned(t, naming, i)
    decreases |t| - i, 0
  {
    OpensFresh(t, i);
    forall m | i <= m < open
      ensures PlaceholderAt(t, naming, m) == None
    {
      NothingOpensBefore(t, naming, i, m);
    }
    PassOver(t, naming, i, open);
    if PlaceholderAt(t, naming, open).Some? {
      ScanIsLeftmostFrom(t, naming, PlaceholderAt(t, naming, open).value.end);
      AlignedBehind(t, naming, i, open);
      HitAgrees(t, naming, i, open);
    } else if PlaceholderAt(t, naming, open + 1).Some? {
      SkippedOver(t, naming, i, open);
    } else {
      PassOver(t, naming, open, open + 2);
      ScanIsLeftmostFrom(t, naming, open + 2);
      AlignedPast(t, naming, i, open);
    }
  }

  lemma HitAgrees(t: string, naming: Naming, i: nat, open: nat)
    requires FindPair(t, i, '{') == Some(open) && PlaceholderAt(t, naming, open).Some?
    requires Leftmost(t, naming, i) == Leftmost(t, naming, open)
    ensures var end := PlaceholderAt(t, naming, open).value.end;
            Spans(t, naming, i) == Leftmost(t, naming, i) <==> Spans(t, naming, end) == Leftmost(t, naming, end)
  {
    var span := PlaceholderAt(t, naming, open).value;
    SameRest(span, Spans(t, naming, span.end), Leftmost(t, naming, span.end));
  }

  /** A placeholder one character behind braces that open nothing is skipped. */
  lemma SkippedOver(t: string, naming: Naming, i: nat, open: nat)
    requires FindPair(t, i, '{') == Some(open) && FindPair(t, open + 2, '}').Some?
    requires PlaceholderAt(t, naming, open).None? && PlaceholderAt(t, naming, open + 1).Some?
    requires Leftmost(t, naming, i) == Leftmost(t, naming, open)
    ensures Spans(t, naming, i) != Leftmost(t, naming, i) && !Aligned(t, naming, i)
  {
    OpensFresh(t, i);
    assert Braces(t, i, open + 1) == 1;
    assert Spans(t, naming, i) == Spans(t, naming, open + 2);
    LaterStarts(t, naming, open + 2);
    assert Leftmost(t, naming, open)[0].start == open + 1;
  }

  lemma SameRest(span: Span, a: seq<Span>, b: seq<Span>)
    ensures [span] + a == [span] + b <==> a == b
  {
    assert ([span] + a)[1..] == a && ([span] + b)[1..] == b;
  }

  lemma {:induction false} TrimEndKeeps(s: string, k: nat)
    requires k < |s| && s[k] == '{'
    ensures k < |Utf8.TrimEnd(s)| && Utf8.TrimEnd(s)[k] == '{'
  {
    if Utf8.IsSpace(s[|s| - 1]) {
      TrimEndKeeps(s[..|s| - 1], k);
    }
  }

  lemma {:induction false} TrimStartKeeps(s: string, k: nat) returns (j: nat)
    requires k < |s| && s[k] == '{'
    ensures j < |Utf8.TrimStart(s)| && Utf8.TrimStart(s)[j] == '{'
  {
    if Utf8.IsSpace(s[0]) {
      j := TrimStartKeeps(s[1..], k - 1);
    } else {
      j := k;
    }
  }

  lemma BraceIsNoName(t: string, a: nat, b: nat, k: nat)
    requires a <= k < b <= |t| && t[k] == '{'
    ensures NameIn(t, a, b) == None
  {
    var text := t[a..b];
    assert text[k - a] == '{';
    TrimEndKeeps(text, k - a);
    var j := TrimStartKeeps(Utf8.TrimEnd(text), k - a);
    assert !IsIdentChar(Utf8.Trim(text)[j]);
  }

  lemma NamesAreBraceless()
    ensures Braceless(NameIn)
  {
    forall t: string, a: nat, b: nat, k | a <= k < b <= |t| && t[k] == '{'
      ensures NameIn(t, a, b) == None
    {
      BraceIsNoName(t, a, b, k);
    }
  }

  /**
   * The scanner finds exactly the leftmost placeholders of a template if and
   * only if each of them has an even number of opening braces directly before it.
   */
  lemma ScanIsLeftmost(t: string)
    ensures Spans(t, NameIn, 0) == Leftmost(t, NameIn, 0) <==> Aligned(t, NameIn, 0)
  {
    NamesAreBraceless();
    ScanIsLeftmostFrom(t, NameIn, 0);
  }

  lemma MissedAfterThree(t: string, naming: Naming)
    requires t == "{{{a}}" && naming(t, 2, 4) == None && naming(t, 3, 4) == Some("a")
    ensures Spans(t, naming, 0) == [] && Leftmost(t, naming, 0) == [Span(1, 6, "a")]
  {
    assert FindPair(t, 0, '{') == Some(0);
    assert FindPair(t, 4, '}') == FindPair(t, 3, '}') == FindPair(t, 2, '}') == Some(4);
    assert FindPair(t, 5, '{') == FindPair(t, 4, '{') == FindPair(t, 3, '{') == FindPair(t, 2, '{') == None;
    assert Leftmost(t, naming, 6) == [];
  }

  lemma TightName(t: string, a: nat, b: nat, name: string)
    requires a <= b <= |t| && t[a..b] == name && IsIdent(name)
    requires !Utf8.IsSpace(name[0]) && !Utf8.IsSpace(name[|name| - 1])
    ensures NameIn(t, a, b) == Some(name)
  {
    assert Utf8.TrimEnd(name) == name && Utf8.TrimStart(name) == name;
  }

  /** After three braces the placeholder is missed. */
  lemma TripleBraceIsMissed(t: string)
    requires t == "{{{a}}"
    ensures Spans(t, NameIn, 0) == [] && Leftmost(t, NameIn, 0) == [Span(1, 6, "a")]
  {
    BraceIsNoName(t, 2, 4, 2);
    NameOfExample(t);
    MissedAfterThree(t, NameIn);
  }

  lemma NameOfExample(t: string)
    requires t == "{{{a}}"
    ensures NameIn(t, 3, 4) == Some("a")
  {
    assert t[3..4] == "a";
    TightName(t, 3, 4, "a");
  }

  /** Placeholders come in order and do not overlap. */
  predicate Apart(t: string, spans: seq<Span>, from: nat)
  {
    from <= |t|
    && (spans != [] ==> from <= spans[0].start < spans[0].end <= |t| && Apart(t, spans[1..], spans[0].end))
  }

  lemma {:induction false} SpansAreApart(t: string, naming: Naming, i: nat)
    requires i <= |t|
    ensures Apart(t, Spans(t, naming, i), i)
    decreases |t| - i
  {
    match FindPair(t, i, '{')
    case None =>
    case Some(open) =>
      match FindPair(t, open + 2, '}') {
        case None =>
        case Some(close) =>
          if naming(t, open + 2, close).Some? {
            SpansAreApart(t, naming, close + 2);
            assert Spans(t, naming, i)[1..] == Spans(t, naming, close + 2);
          } else {
            SpansAreApart(t, naming, open + 2);
          }
      }
  }

  // ----- names -----

  function Placeholders(t: string): seq<Span> { Spans(t, NameIn, 0) }

  function NamesOf(spans: seq<Span>): set<string> { set s | s in spans :: s.name }

  /** `extract_placeholders`: the names in order of first use. */
  method ExtractPlaceholders(template: string) returns (names: seq<string>)
    ensures forall n :: n in names <==> n in NamesOf(Placeholders(template))
    ensures names == FirstUses(Placeholders(template), |Placeholders(template)|)
    ensures forall i, j | 0 <= i < j < |names| :: names[i] != names[j]
  {
    var spans := ScanPlaceholders(template, NameIn);
    names := DistinctNames(spans);
  }

  method DistinctNames(spans: seq<Span>) returns (names: seq<string>)
    ensures forall n :: n in names <==> n in NamesOf(spans)
    ensures names == FirstUses(spans, |spans|)
    ensures forall i, j | 0 <= i < j < |names| :: names[i] != names[j]
  {
    names := [];
    var seen: set<string> := {};
    for i := 0 to |spans|
      invariant names == FirstUses(spans, i)
      invariant forall n :: n in seen <==> n in names
      invariant forall n :: n in names <==> n in NamesOf(spans[..i])
      invariant forall a, b | 0 <= a < b < |names| :: names[a] != names[b]
    {
      assert spans[..i + 1] == spans[..i] + [spans[i]];
      if spans[i].name !in seen {
        names := names + [spans[i].name];
        seen := seen + {spans[i].name};
      }
    }
    assert spans[..|spans|] == spans;
  }

  function FirstUses(spans: seq<Span>, n: nat): seq<string>
    requires n <= |spans|
  {
    if n == 0 then []
    else
      var before := FirstUses(spans, n - 1);
      if spans[n - 1].name in before then before else before + [spans[n - 1].name]
  }

  /** `validate_prompt`: the first name that is not allowed. */
  method ValidatePrompt(prompt: Option<string>, allowed: seq<string>) returns (unknown: Option<string>)
    ensures prompt.None? ==> unknown.None?
    ensures prompt.Some? ==> IsFirstUnknown(Placeholders(prompt.value), allowed, unknown)
  {
    if prompt.None? {
      return None;
    }
    var spans := ScanPlaceholders(prompt.value, NameIn);
    unknown := FirstUnknown(spans, allowed);
  }

  /** None exactly if every name is allowed, else the first that is not, in order of first use. */
  predicate IsFirstUnknown(spans: seq<Span>, allowed: seq<string>, unknown: Option<string>)
  {
    var names := FirstUses(spans, |spans|);
    match unknown
    case None => forall n <- names :: n in allowed
    case Some(name) => exists i | 0 <= i < |names| ::
      names[i] == name && name !in allowed && forall j | 0 <= j < i :: names[j] in allowed
  }

  method FirstUnknown(spans: seq<Span>, allowed: seq<string>) returns (unknown: Option<string>)
    ensures IsFirstUnknown(spans, allowed, unknown)
  {
    var names := DistinctNames(spans);
    for i := 0 to |names|
      invariant forall j | 0 <= j < i :: names[j] in allowed
    {
      if names[i] !in allowed {
        return Some(names[i]);
      }
    }
    return None;
  }

  // ----- rendering -----

  type Vars = map<string, string>

  function Rendered(t: string, spans: seq<Span>, vars: Vars, last: nat): string
    requires Apart(t, spans, last)
    decreases |spans|
  {
    if spans == [] then t[last..]
    else
      var s := spans[0];
      Value(t, s, vars, last) + Rendered(t, spans[1..], vars, s.end)
  }

  /** A placeholder with what stands before it, its value put in if it has one. */
  function Value(t: string, s: Span, vars: Vars, last: nat): string
    requires last <= s.start < s.end <= |t|
  {
    t[last..s.start] + if s.name in vars then vars[s.name] else t[s.start..s.end]
  }

  /** `render_template`: the values are copied, never scanned again. */
  method RenderTemplate(template: string, vars: Vars) returns (out: string)
    ensures Apart(template, Placeholders(template), 0)
    ensures out == Rendered(template, Placeholders(template), vars, 0)
  {
    var spans := ScanPlaceholders(template, NameIn);
    SpansAreApart(template, NameIn, 0);
    out := Render(template, spans, vars);
  }

  method Render(template: string, spans: seq<Span>, vars: Vars) returns (out: string)
    requires Apart(template, spans, 0)
    ensures out == Rendered(template, spans, vars, 0)
  {
    out := "";
    var last: nat := 0;
    ghost var passed: nat := 0;
    assert spans[0..] == spans;
    for i := 0 to |spans|
      invariant last <= passed <= |template| && Apart(template, spans[i..], passed)
      invariant out + template[last..passed] + Rendered(template, spans[i..], vars, passed) == Rendered(template, spans, vars, 0)
    {
      var s := spans[i];
      assert spans[i..][0] == s && spans[i..][1..] == spans[i + 1..];
      RenderStep(out, template, spans[i..], vars, last, passed);
      if s.name in vars {
        out := out + template[last..s.start];
        out := out + vars[s.name];
        last := s.end;
      }
      passed := s.end;
    }
    assert spans[|spans|..] == [];
    RenderEnd(out, template, last, passed);
    out := out + template[last..];
  }

  lemma RenderStep(out: string, t: string, spans: seq<Span>, vars: Vars, last: nat, passed: nat)
    requires spans != [] && Apart(t, spans, passed) && last <= passed
    ensures var s := spans[0];
            var rest := Rendered(t, spans[1..], vars, s.end);
            out + t[last..passed] + Rendered(t, spans, vars, passed)
            == if s.name in vars then out + t[last..s.start] + vars[s.name] + t[s.end..s.end] + rest else out + t[last..s.end] + rest
  {
    var s := spans[0];
    var rest := Rendered(t, spans[1..], vars, s.end);
    if s.name in vars {
      PutIn(out, t, s, last, passed, vars[s.name], rest);
    } else {
      LeftIn(out, t, s, last, passed, rest);
    }
  }

  lemma PutIn(out: string, t: string, s: Span, last: nat, passed: nat, value: string, rest: string)
    requires last <= passed <= s.start < s.end <= |t|
    ensures out + t[last..passed] + (t[passed..s.start] + value + rest) == out + t[last..s.start] + value + t[s.end..s.end] + rest
  {
    assert t[last..passed] + t[passed..s.start] == t[last..s.start];
    Rejoin(out, t[last..passed], t[passed..s.start], value, rest);
    assert out + t[last..s.start] + value + t[s.end..s.end] == out + t[last..s.start] + value;
  }

  lemma LeftIn(out: string, t: string, s: Span, last: nat, passed: nat, rest: string)
    requires last <= passed <= s.start < s.end <= |t|
    ensures out + t[last..passed] + (t[passed..s.start] + t[s.start..s.end] + rest) == out + t[last..s.end] + rest
  {
    var value := t[s.start..s.end];
    assert t[last..passed] + t[passed..s.start] == t[last..s.start];
    Rejoin(out, t[last..passed], t[passed..s.start], value, rest);
    assert out + t[last..s.start] + value == out + t[last..s.end];
  }

  lemma Rejoin(out: string, a: string, b: string, value: string, rest: string)
    ensures out + a + (b + value + rest) == out + (a + b) + value + rest
  {
  }

  lemma RenderEnd(out: string, t: string, last: nat, passed: nat)
    requires last <= passed <= |t|
    ensures out + t[last..passed] + t[passed..] == out + t[last..]
  {
    assert t[last..] == t[last..passed] + t[passed..];
  }

  /** Without values for any of its names a template is left as it is. */
  lemma {:induction false} NothingToRender(t: string, spans: seq<Span>, vars: Vars, last: nat)
    requires Apart(t, spans, last) && forall s <- spans :: s.name !in vars
    ensures Rendered(t, spans, vars, last) == t[last..]
    decreases |spans|
  {
    if spans != [] {
      var s := spans[0];
      NothingToRender(t, spans[1..], vars, s.end);
      assert t[last..] == t[last..s.start] + t[s.start..s.end] + t[s.end..];
    }
  }
}
