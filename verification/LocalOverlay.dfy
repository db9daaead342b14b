/** The whole local document of src/config_local/merge.rs: its services, its port-forwards, and what is reported as overridden. */
module LocalOverlay {
  import opened Basics
  import opened YamlMerge

  /** What the local document changed: the services and forwards it names, with the fields it set on each. */
  datatype Overrides = Overrides(services: map<string, set<string>>, forwards: map<string, set<string>>)

  datatype Error = NotAMapping | ForwardNotAMapping(index: nat) | ForwardNeedsName(index: nat)

  const SERVICES := Str("services")
  const FORWARDS := Str("portforwards")

  function Names(m: Mapping): set<string> { set k | k in m && k.Str? :: k.s }

  function Fields(v: Value): set<string> { if v.Map? then Names(v.entries) else {} }

  /** The services a local document is reported to override. */
  function ServiceOverrides(local: Mapping): map<string, set<string>>
  {
    map name | name in Names(local) && local[Str(name)] != Null :: Fields(local[Str(name)])
  }

  function Section(v: Option<Value>): Mapping
  {
    if v.Some? && v.value.Map? then v.value.entries else map[]
  }

  method MergeServices(base: Mapping, local: Mapping) returns (merged: Mapping, touched: map<string, set<string>>)
    ensures merged == Overlay(base, Map(local))
    ensures touched == ServiceOverrides(local)
  {
    merged, touched := base, map[];
    var left := local.Keys;
    NothingYet(base, local);
    while left != {}
      invariant left <= local.Keys
      invariant merged == Overlay(base, PartOf(local, left))
      invariant touched == ServiceOverrides(local - left)
    {
      var name :| name in left;
      var service := local[name];
      if name.Str? {
        touched := if service == Null then touched - {name.s} else touched[name.s := Fields(service)];
      }
      ghost var before := merged;
      merged := MergeEntry(merged, name, service);
      NextEntry(base, local, left, name, before, merged);
      NextService(local, left, name);
      left := left - {name};
    }
    assert local - {} == local;
  }

  lemma NextService(local: Mapping, left: set<Value>, name: Value)
    requires left <= local.Keys && name in left
    ensures ServiceOverrides(local - (left - {name})) ==
              var before := ServiceOverrides(local - left);
              if !name.Str? then before
              else if local[name] == Null then before - {name.s}
              else before[name.s := Fields(local[name])]
  {
    var now := local - (left - {name});
    assert forall k :: k in now <==> k == name || k in local - left;
    assert forall n :: n in Names(now) <==> Str(n) in now;
    assert forall n :: n in Names(local - left) <==> Str(n) in local - left;
  }

  // ----- port-forwards are matched by name -----

  function ForwardKey(entry: Mapping): Option<string>
  {
    match (Lookup(entry, Str("name")), Lookup(entry, Str("namespace")), Lookup(entry, Str("pod")))
    case (Some(Str(name)), _, _) => Some(name)
    case (_, Some(Str(namespace)), Some(Str(pod))) => Some(namespace + ":" + pod)
    case _ => None
  }

  function KeyOf(v: Value): Option<string> { if v.Map? then ForwardKey(v.entries) else None }

  predicate HasKey(list: seq<Value>, name: string) { exists v <- list :: KeyOf(v) == Some(name) }

  /** The first entry with the name; past the end if there is none. */
  function Position(list: seq<Value>, name: string): (p: nat)
    ensures p <= |list| && (p < |list| ==> KeyOf(list[p]) == Some(name)) && forall i | 0 <= i < p :: KeyOf(list[i]) != Some(name)
  {
    if list == [] || KeyOf(list[0]) == Some(name) then 0 else 1 + Position(list[1..], name)
  }

  type Reports = map<string, set<string>>

  predicate Removes(entry: Mapping) { Lookup(entry, Str("remove")) == Some(Bool(true)) }

  function ForwardFields(entry: Mapping): set<string> { Names(entry - {Str("remove")}) - {"name"} }

  /** One local entry, with its key. */
  function Forwarded(list: seq<Value>, entry: Mapping, name: string): seq<Value>
  {
    var p, change := Position(list, name), Map(entry - {Str("remove")});
    if Removes(entry) then (if p < |list| then list[..p] + list[p + 1..] else list)
    else if p < |list| then list[p := Map(Overlay(list[p].entries, change))]
    else list + [Map(Overlay(map[], change))]
  }

  function Reported(reports: Reports, entry: Mapping, name: string): Reports
  {
    if Removes(entry) then reports - {name} else reports[name := ForwardFields(entry)]
  }

  /** What the entry at `index` makes of the list and the reports, or why it is bad. */
  function ForwardStep(list: seq<Value>, reports: Reports, entry: Value, index: nat): Result<(seq<Value>, Reports), Error>
  {
    if !entry.Map? then Err(ForwardNotAMapping(index))
    else
      match KeyOf(entry)
      case None => Err(ForwardNeedsName(index))
      case Some(name) => Ok((Forwarded(list, entry.entries, name), Reported(reports, entry.entries, name)))
  }

  function ForwardsMerged(base: seq<Value>, local: seq<Value>): Result<(seq<Value>, Reports), Error>
  {
    if local == [] then Ok((base, map[]))
    else
      var i := |local| - 1;
      match ForwardsMerged(base, local[..i])
      case Err(e) => Err(e)
      case Ok((list, reports)) => ForwardStep(list, reports, local[i], i)
  }

  method MergeForwards(base: seq<Value>, local: seq<Value>) returns (r: Result<(seq<Value>, Reports), Error>)
    ensures r == ForwardsMerged(base, local)
  {
    r := Ok((base, map[]));
    for index := 0 to |local|
      invariant r.Ok? && ForwardsMerged(base, local[..index]) == r
    {
      assert local[..index + 1][..index] == local[..index];
      r := MergeForward(r.value.0, r.value.1, local[index], index);
      if r.Err? {
        Bails(base, local, index + 1);
        return;
      }
    }
    assert local[..|local|] == local;
  }

  method MergeForward(base: seq<Value>, reports: Reports, local: Value, index: nat) returns (r: Result<(seq<Value>, Reports), Error>)
    ensures r == ForwardStep(base, reports, local, index)
  {
    if !local.Map? {
      return Err(ForwardNotAMapping(index));
    }
    var list, touched, entry := base, reports, local.entries;
    var key := ForwardKey(entry);
    if key.None? {
      return Err(ForwardNeedsName(index));
    }
    var remove := Lookup(entry, Str("remove")) == Some(Bool(true));
    entry := entry - {Str("remove")};
    var position := Position(list, key.value);
    if remove {
      if position < |list| {
        list := list[..position] + list[position + 1..];
      }
      return Ok((list, touched - {key.value}));
    }
    touched := touched[key.value := Names(entry) - {"name"}];
    if position < |list| {
      var merged := MergeMapping(list[position].entries, entry);
      list := list[position := Map(merged)];
    } else {
      var merged := MergeMapping(map[], entry);
      list := list + [Map(merged)];
    }
    return Ok((list, touched));
  }

  /** A bad entry fails the whole list. */
  lemma {:induction false} Bails(base: seq<Value>, local: seq<Value>, n: nat)
    requires n <= |local| && ForwardsMerged(base, local[..n]).Err?
    ensures ForwardsMerged(base, local) == ForwardsMerged(base, local[..n])
    decreases |local|
  {
    if n < |local| {
      var i := |local| - 1;
      assert local[..i][..n] == local[..n];
      Bails(base, local[..i], n);
    } else {
      assert local[..n] == local;
    }
  }

  /** Merging an entry over one of the same key keeps the key. */
  lemma KeyKept(base: Mapping, entry: Mapping, name: string)
    requires ForwardKey(entry) == Some(name) && (base == map[] || ForwardKey(base) == Some(name))
    ensures KeyOf(Map(Overlay(base, Map(entry - {Str("remove")})))) == Some(name)
  {
    var change := Map(entry - {Str("remove")});
    OverlayAt(base, change, Str("name"));
    OverlayAt(base, change, Str("namespace"));
    OverlayAt(base, change, Str("pod"));
  }

  predicate DistinctKeys(list: seq<Value>)
  {
    forall i, j | 0 <= i < j < |list| && KeyOf(list[i]).Some? :: KeyOf(list[i]) != KeyOf(list[j])
  }

  /** What one entry does to the keys of the list. */
  lemma ForwardedKeys(list: seq<Value>, entry: Mapping, name: string)
    requires ForwardKey(entry) == Some(name)
    ensures var after := Forwarded(list, entry, name);
            && (forall other | other != name :: HasKey(after, other) <==> HasKey(list, other))
            && (!Removes(entry) ==> HasKey(after, name))
            && (DistinctKeys(list) ==> DistinctKeys(after) && (Removes(entry) ==> !HasKey(after, name)))
  {
    var p, after := Position(list, name), Forwarded(list, entry, name);
    if Removes(entry) {
      RemovedKeys(list, name);
    } else if p < |list| {
      KeyKept(list[p].entries, entry, name);
      assert forall i | 0 <= i < |list| :: KeyOf(after[i]) == KeyOf(list[i]);
      SameKeys(list, after);
    } else {
      KeyKept(map[], entry, name);
      assert after[|list|] in after;
      forall other | other != name
        ensures HasKey(after, other) <==> HasKey(list, other)
      {
        assert forall v <- after :: v in list || v == after[|list|];
        assert forall v <- list :: v in after;
      }
    }
  }

  lemma SameKeys(a: seq<Value>, b: seq<Value>)
    requires |a| == |b| && forall i | 0 <= i < |a| :: KeyOf(b[i]) == KeyOf(a[i])
    ensures forall n :: HasKey(b, n) <==> HasKey(a, n)
    ensures DistinctKeys(a) ==> DistinctKeys(b)
  {
    forall n
      ensures HasKey(b, n) <==> HasKey(a, n)
    {
      if v :| v in a && KeyOf(v) == Some(n) {
        var i :| 0 <= i < |a| && a[i] == v;
        assert b[i] in b;
      }
      if v :| v in b && KeyOf(v) == Some(n) {
        var i :| 0 <= i < |b| && b[i] == v;
        assert a[i] in a;
      }
    }
  }

  lemma KeysOfConcat(a: seq<Value>, b: seq<Value>, name: string)
    ensures HasKey(a + b, name) <==> HasKey(a, name) || HasKey(b, name)
  {
    assert forall v :: v in a + b <==> v in a || v in b;
  }

  /** Taking out an entry takes its key out, and no other. */
  lemma KeysWithout(front: seq<Value>, v: Value, back: seq<Value>, other: string)
    requires KeyOf(v) != Some(other)
    ensures HasKey(front + back, other) <==> HasKey(front + [v] + back, other)
  {
    KeysOfConcat(front, back, other);
    KeysOfConcat(front + [v], back, other);
    KeysOfConcat(front, [v], other);
  }

  lemma DistinctWithout(list: seq<Value>, p: nat, after: seq<Value>, name: string)
    requires p < |list| && KeyOf(list[p]) == Some(name) && DistinctKeys(list)
    requires |after| == |list| - 1 && forall i | 0 <= i < |after| :: after[i] == list[if i < p then i else i + 1]
    ensures DistinctKeys(after) && !HasKey(after, name)
  {
    forall i | 0 <= i < |after|
      ensures KeyOf(after[i]) != Some(name)
    {
      var j := if i < p then i else i + 1;
      assert j < p ==> KeyOf(list[j]).None? || KeyOf(list[j]) != KeyOf(list[p]);
    }
    NowhereIn(after, name);
  }

  lemma RemovedKeys(list: seq<Value>, name: string)
    ensures var p := Position(list, name);
            var after := if p < |list| then list[..p] + list[p + 1..] else list;
            && (forall other | other != name :: HasKey(after, other) <==> HasKey(list, other))
            && (DistinctKeys(list) ==> DistinctKeys(after) && !HasKey(after, name))
  {
    var p := Position(list, name);
    if p < |list| {
      TakenOut(list, p, list[..p] + list[p + 1..], name);
    } else {
      NowhereIn(list, name);
    }
  }

  lemma NowhereIn(list: seq<Value>, name: string)
    requires forall i | 0 <= i < |list| :: KeyOf(list[i]) != Some(name)
    ensures !HasKey(list, name)
  {
  }

  lemma TakenOut(list: seq<Value>, p: nat, after: seq<Value>, name: string)
    requires p < |list| && KeyOf(list[p]) == Some(name) && after == list[..p] + list[p + 1..]
    ensures forall other | other != name :: HasKey(after, other) <==> HasKey(list, other)
    ensures DistinctKeys(list) ==> DistinctKeys(after) && !HasKey(after, name)
  {
    assert list == list[..p] + [list[p]] + list[p + 1..];
    forall other | other != name
      ensures HasKey(after, other) <==> HasKey(list, other)
    {
      KeysWithout(list[..p], list[p], list[p + 1..], other);
    }
    if DistinctKeys(list) {
      DistinctWithout(list, p, after, name);
    }
  }

  function LocalKeys(local: seq<Value>): set<string>
  {
    set v | v in local && KeyOf(v).Some? :: KeyOf(v).value
  }

  /** Given a shared list with one entry a key, the forwards reported are exactly the local ones that are in the merged list. */
  lemma {:induction false} ReportedForwards(base: seq<Value>, local: seq<Value>, name: string)
    requires DistinctKeys(base) && ForwardsMerged(base, local).Ok?
    ensures var (list, reports) := ForwardsMerged(base, local).value;
            && DistinctKeys(list)
            && (name in LocalKeys(local) ==> (name in reports <==> HasKey(list, name)))
            && (name !in LocalKeys(local) ==> name !in reports && (HasKey(list, name) <==> HasKey(base, name)))
  {
    if local != [] {
      var i := |local| - 1;
      ReportedForwards(base, local[..i], name);
      var (list, reports) := ForwardsMerged(base, local[..i]).value;
      ForwardedKeys(list, local[i].entries, KeyOf(local[i]).value);
      assert forall v :: v in local <==> v in local[..i] || v == local[i];
    }
  }

  // ----- what a forward holds -----

  /** The first entry of that name. */
  function Held(list: seq<Value>, name: string): Option<Value>
  {
    var p := Position(list, name);
    if p < |list| then Some(list[p]) else None
  }

  /** An entry without its `remove`. */
  function Kept(entry: Mapping): Value { Map(entry - {Str("remove")}) }

  /** What the local entries of that name, one after the other, make of what was held. */
  function Overlaid(held: Option<Value>, local: seq<Value>, name: string): Option<Value>
  {
    if local == [] then held
    else
      var before, v := Overlaid(held, local[..|local| - 1], name), local[|local| - 1];
      if KeyOf(v) != Some(name) then before
      else if Removes(v.entries) then None
      else Merged(before, Kept(v.entries))
  }

  lemma {:induction false} PositionIs(list: seq<Value>, name: string, p: nat)
    requires p <= |list| && (p < |list| ==> KeyOf(list[p]) == Some(name))
    requires forall i | 0 <= i < p :: KeyOf(list[i]) != Some(name)
    ensures Position(list, name) == p
  {
  }

  /** The entry is merged in place, or put behind; entries of other names stay. */
  lemma MergedHolds(list: seq<Value>, entry: Mapping, name: string, other: string)
    requires ForwardKey(entry) == Some(name) && !Removes(entry)
    ensures Held(Forwarded(list, entry, name), other) == if other == name then Merged(Held(list, name), Kept(entry)) else Held(list, other)
  {
    var p, after, q := Position(list, name), Forwarded(list, entry, name), Position(list, other);
    KeyKept(if p < |list| then list[p].entries else map[], entry, name);
    if other == name {
      PositionIs(after, name, p);
    } else if q < |list| || p < |list| {
      PositionIs(after, other, q);
    } else {
      PositionIs(after, other, |after|);
    }
  }

  lemma RemovedHolds(list: seq<Value>, p: nat, after: seq<Value>, name: string, other: string)
    requires p == Position(list, name) < |list| && after == list[..p] + list[p + 1..] && DistinctKeys(list)
    ensures Held(after, other) == if other == name then None else Held(list, other)
  {
    var q := Position(list, other);
    if other == name {
      forall i | 0 <= i < |after|
        ensures KeyOf(after[i]) != Some(name)
      {
        assert after[i] == list[if i < p then i else i + 1];
      }
      PositionIs(after, name, |after|);
    } else {
      assert forall i | 0 <= i < |after| :: after[i] == list[if i < p then i else i + 1];
      PositionIs(after, other, if q < p then q else q - 1);
    }
  }

  lemma ForwardedHolds(list: seq<Value>, entry: Mapping, name: string, other: string)
    requires ForwardKey(entry) == Some(name) && DistinctKeys(list)
    ensures Held(Forwarded(list, entry, name), other) ==
            if other != name then Held(list, other)
            else if Removes(entry) then None else Merged(Held(list, name), Kept(entry))
  {
    if !Removes(entry) {
      MergedHolds(list, entry, name, other);
    } else if Position(list, name) < |list| {
      RemovedHolds(list, Position(list, name), Forwarded(list, entry, name), name, other);
    }
  }

  /** Over a shared list with distinct keys, each forward of the merged list holds what the local entries of its name make of the shared one. */
  lemma {:induction false} ForwardsHold(base: seq<Value>, local: seq<Value>, name: string)
    requires DistinctKeys(base) && ForwardsMerged(base, local).Ok?
    ensures DistinctKeys(ForwardsMerged(base, local).value.0)
    ensures Held(ForwardsMerged(base, local).value.0, name) == Overlaid(Held(base, name), local, name)
  {
    if local != [] {
      var i := |local| - 1;
      ForwardsHold(base, local[..i], name);
      var list, key := ForwardsMerged(base, local[..i]).value.0, KeyOf(local[i]).value;
      ForwardedKeys(list, local[i].entries, key);
      ForwardedHolds(list, local[i].entries, key, name);
    }
  }

  /** No local entry of the list has that name. */
  predicate Unnamed(local: seq<Value>, name: string) { forall v <- local :: KeyOf(v) != Some(name) }

  lemma {:induction false} UnnamedOverlays(held: Option<Value>, local: seq<Value>, more: seq<Value>, name: string)
    requires Unnamed(more, name)
    ensures Overlaid(held, local + more, name) == Overlaid(held, local, name)
  {
    if more == [] {
      assert local + more == local;
    } else {
      var n := |more| - 1;
      assert (local + more)[..|local| + n] == local + more[..n] && more[n] in more;
      UnnamedOverlays(held, local, more[..n], name);
    }
  }

  /** A forward that one local entry names follows the merge law path by path, and its report lists the fields of that entry. */
  lemma ForwardPathByPath(base: seq<Value>, front: seq<Value>, entry: Mapping, back: seq<Value>, name: string, path: Path)
    requires DistinctKeys(base) && ForwardKey(entry) == Some(name) && Unnamed(front, name) && Unnamed(back, name)
    requires Lookup(entry, Str("remove")) != Some(Bool(true))
    requires ForwardsMerged(base, front + [Map(entry)] + back).Ok?
    ensures var (list, reports) := ForwardsMerged(base, front + [Map(entry)] + back).value;
            && MergeLaw(Held(base, name), Kept(entry), Held(list, name), path)
            && name in reports
            && forall f :: f in reports[name] <==> f != "name" && f != "remove" && Str(f) in entry
  {
    var local := front + [Map(entry)];
    ForwardsHold(base, local + back, name);
    UnnamedOverlays(Held(base, name), local, back, name);
    assert local[..|local| - 1] == front;
    assert [] + front == front;
    UnnamedOverlays(Held(base, name), [], front, name);
    PathByPath(Held(base, name), Kept(entry), path);
    ReportStays(base, local, back, name);
    FieldsAre(entry);
  }

  /** A forward whose last local entry says `remove: true` is gone, and not reported. */
  lemma ForwardIsRemoved(base: seq<Value>, front: seq<Value>, entry: Mapping, back: seq<Value>, name: string)
    requires DistinctKeys(base) && ForwardKey(entry) == Some(name) && Unnamed(back, name)
    requires Lookup(entry, Str("remove")) == Some(Bool(true)) && ForwardsMerged(base, front + [Map(entry)] + back).Ok?
    ensures var (list, reports) := ForwardsMerged(base, front + [Map(entry)] + back).value;
            Held(list, name) == None && name !in reports
  {
    var local := front + [Map(entry)];
    ForwardsHold(base, local + back, name);
    UnnamedOverlays(Held(base, name), local, back, name);
    assert local[..|local| - 1] == front;
    ReportStays(base, local, back, name);
  }

  lemma FieldsAre(entry: Mapping)
    ensures forall f :: f in ForwardFields(entry) <==> f != "name" && f != "remove" && Str(f) in entry
  {
  }

  lemma ReportOf(list: seq<Value>, was: Reports, v: Value, index: nat, name: string)
    requires KeyOf(v) != Some(name) && ForwardStep(list, was, v, index).Ok?
    ensures var now := ForwardStep(list, was, v, index).value.1;
            (name in now <==> name in was) && (name in was ==> now[name] == was[name])
  {
  }

  lemma {:induction false} ReportStays(base: seq<Value>, local: seq<Value>, more: seq<Value>, name: string)
    requires Unnamed(more, name) && ForwardsMerged(base, local + more).Ok?
    ensures ForwardsMerged(base, local).Ok?
    ensures var was, now := ForwardsMerged(base, local).value.1, ForwardsMerged(base, local + more).value.1;
            (name in now <==> name in was) && (name in was ==> now[name] == was[name])
  {
    if more == [] {
      assert local + more == local;
    } else {
      var n := |more| - 1;
      var front := local + more[..n];
      assert (local + more)[..|front|] == front && more[n] in more;
      ReportStays(base, local, more[..n], name);
      var (list, was) := ForwardsMerged(base, front).value;
      ReportOf(list, was, more[n], |front|, name);
    }
  }

  /** A forward goes by its name, or by namespace and pod if it has no name that is a string. */
  lemma KeyIs(entry: Mapping, name: string)
    ensures ForwardKey(entry) == Some(name) <==>
            || Lookup(entry, Str("name")) == Some(Str(name))
            || ((forall n :: Lookup(entry, Str("name")) != Some(Str(n)))
                && exists namespace, pod ::
                     && Lookup(entry, Str("namespace")) == Some(Str(namespace)) && Lookup(entry, Str("pod")) == Some(Str(pod))
                     && name == namespace + ":" + pod)
  {
  }

  /** The entries with none of the keys. */
  function Others(list: seq<Value>, keys: set<string>): seq<Value>
  {
    if list == [] then []
    else OtherIn(list[0], keys) + Others(list[1..], keys)
  }

  function OtherIn(v: Value, keys: set<string>): seq<Value>
  {
    if KeyOf(v).Some? && KeyOf(v).value in keys then [] else [v]
  }

  lemma {:induction false} OthersOfConcat(a: seq<Value>, b: seq<Value>, keys: set<string>)
    ensures Others(a + b, keys) == Others(a, keys) + Others(b, keys)
  {
    if a == [] {
      assert a + b == b;
    } else {
      OthersOfConcat(a[1..], b, keys);
      assert (a + b)[0] == a[0] && (a + b)[1..] == a[1..] + b;
      Associate(OtherIn(a[0], keys), Others(a[1..], keys), Others(b, keys));
    }
  }

  /** An entry whose key is among them does not show. */
  lemma Hidden(front: seq<Value>, v: Value, back: seq<Value>, keys: set<string>)
    requires KeyOf(v).Some? && KeyOf(v).value in keys
    ensures Others(front + [v] + back, keys) == Others(front + back, keys)
  {
    OthersOfConcat(front + [v], back, keys);
    OthersOfConcat(front, [v], keys);
    OthersOfConcat(front, back, keys);
    assert OtherIn(v, keys) == [] && [v][1..] == [];
    NothingBetween(Others(front, keys), Others([v], keys), Others(back, keys));
  }

  lemma NothingBetween<T>(a: seq<T>, b: seq<T>, c: seq<T>)
    requires b == []
    ensures a + b + c == a + c
  {
  }

  lemma ForwardedOthers(list: seq<Value>, entry: Mapping, name: string, keys: set<string>)
    requires ForwardKey(entry) == Some(name) && name in keys
    ensures Others(Forwarded(list, entry, name), keys) == Others(list, keys)
  {
    var p := Position(list, name);
    if p < |list| {
      var front, back := list[..p], list[p + 1..];
      assert list == front + [list[p]] + back;
      Hidden(front, list[p], back, keys);
      if !Removes(entry) {
        KeyKept(list[p].entries, entry, name);
        var merged := Map(Overlay(list[p].entries, Map(entry - {Str("remove")})));
        assert list[p := merged] == front + [merged] + back;
        Hidden(front, merged, back, keys);
      }
    } else if !Removes(entry) {
      KeyKept(map[], entry, name);
      var added := Map(Overlay(map[], Map(entry - {Str("remove")})));
      assert list + [added] == list + [added] + [] && list + [] == list;
      Hidden(list, added, [], keys);
    }
  }

  /** Forwards the local list does not name keep their content and their order. */
  lemma {:induction false} OtherForwardsStay(base: seq<Value>, local: seq<Value>, keys: set<string>)
    requires LocalKeys(local) <= keys && ForwardsMerged(base, local).Ok?
    ensures Others(ForwardsMerged(base, local).value.0, keys) == Others(base, keys)
  {
    if local != [] {
      var i := |local| - 1;
      assert forall v <- local[..i] :: v in local;
      assert LocalKeys(local[..i]) <= LocalKeys(local);
      OtherForwardsStay(base, local[..i], keys);
      assert local[i] in local && KeyOf(local[i]).value in LocalKeys(local);
      ForwardedOthers(ForwardsMerged(base, local[..i]).value.0, local[i].entries, KeyOf(local[i]).value, keys);
    }
  }

  // ----- the top level -----

  predicate Forwards(local: Mapping) { FORWARDS in local && local[FORWARDS].Seq? }

  predicate Services(local: Mapping) { SERVICES in local && local[SERVICES].Map? }

  function SharedForwards(base: Mapping): seq<Value>
  {
    if FORWARDS in base && base[FORWARDS].Seq? then base[FORWARDS].items else []
  }

  function MergedForwards(base: Mapping, local: Mapping): Result<(seq<Value>, Reports), Error>
  {
    if Forwards(local) then ForwardsMerged(SharedForwards(base), local[FORWARDS].items) else Ok((SharedForwards(base), map[]))
  }

  /** What the merged document holds under a top-level key. */
  function TopLevel(base: Mapping, local: Mapping, forwards: seq<Value>, k: Value): Option<Value>
  {
    if k !in local then Lookup(base, k)
    else if k == SERVICES && local[k].Map? then Some(Map(Overlay(Section(Lookup(base, k)), local[k])))
    else if k == FORWARDS && local[k].Seq? then Some(Seq(forwards))
    else Merged(Lookup(base, k), local[k])
  }

  function TopMapping(base: Mapping, local: Mapping, forwards: seq<Value>): Mapping
  {
    map k | k in base.Keys + local.Keys && TopLevel(base, local, forwards, k).Some? :: TopLevel(base, local, forwards, k).value
  }

  function ConfigMerged(base: Value, local: Value): Result<(Value, Overrides), Error>
  {
    if !base.Map? || !local.Map? then Err(NotAMapping)
    else
      match MergedForwards(base.entries, local.entries)
      case Err(e) => Err(e)
      case Ok((forwards, reports)) =>
        var services := if Services(local.entries) then ServiceOverrides(local.entries[SERVICES].entries) else map[];
        Ok((Map(TopMapping(base.entries, local.entries, forwards)), Overrides(services, reports)))
  }

  /** The document after all local top-level keys but those in `left`. */
  predicate Midway(base: Mapping, local: Mapping, left: set<Value>, merged: Mapping, overrides: Overrides)
  {
    var goal := MergedForwards(base, local);
    && (Forwards(local) && FORWARDS !in left ==> goal.Ok?)
    && (forall k | k in merged.Keys + base.Keys + local.Keys ::
          Lookup(merged, k) == if k in left then Lookup(base, k) else TopLevel(base, local, if goal.Ok? then goal.value.0 else [], k))
    && overrides.services == (if Services(local) && SERVICES !in left then ServiceOverrides(local[SERVICES].entries) else map[])
    && overrides.forwards == (if Forwards(local) && FORWARDS !in left then goal.value.1 else map[])
  }

  lemma OneMoreKey(base: Mapping, local: Mapping, left: set<Value>, key: Value, before: Mapping, after: Mapping, was: Overrides, now: Overrides)
    requires Midway(base, local, left, before, was) && key in left && left <= local.Keys
    requires forall k | k != key :: Lookup(after, k) == Lookup(before, k)
    requires key == FORWARDS && Forwards(local) ==> MergedForwards(base, local).Ok?
    requires Lookup(after, key) == TopLevel(base, local, if MergedForwards(base, local).Ok? then MergedForwards(base, local).value.0 else [], key)
    requires now.services == if key == SERVICES && Services(local) then ServiceOverrides(local[SERVICES].entries) else was.services
    requires now.forwards == if key == FORWARDS && Forwards(local) then MergedForwards(base, local).value.1 else was.forwards
    ensures Midway(base, local, left - {key}, after, now)
  {
    forall k | k in after.Keys + base.Keys + local.Keys && k != key
      ensures k in before.Keys + base.Keys + local.Keys
    {
      assert Lookup(after, k) == Lookup(before, k);
    }
  }

  /** What one top-level entry makes of the document so far. */
  ghost predicate TopStep(base: Mapping, key: Value, value: Value, overrides: Overrides, r: Result<(Mapping, Overrides), Error>)
  {
    if key == FORWARDS && value.Seq? then
      match ForwardsMerged(SharedForwards(base), value.items)
      case Err(e) => r == Err(e)
      case Ok((list, reports)) => r == Ok((base[key := Seq(list)], overrides.(forwards := reports)))
    else if key == SERVICES && value.Map? then
      r == Ok((base[key := Map(Overlay(Section(Lookup(base, key)), value))], overrides.(services := ServiceOverrides(value.entries))))
    else
      && r.Ok? && r.value.1 == overrides && Lookup(r.value.0, key) == Merged(Lookup(base, key), value)
      && forall k | k != key :: Lookup(r.value.0, k) == Lookup(base, k)
  }

  lemma StepFits(base: Mapping, local: Mapping, left: set<Value>, key: Value, merged: Mapping, overrides: Overrides,
                 next: Result<(Mapping, Overrides), Error>)
    requires Midway(base, local, left, merged, overrides) && key in left && left <= local.Keys
    requires TopStep(merged, key, local[key], overrides, next)
    ensures next.Err? ==> ConfigMerged(Map(base), Map(local)) == Err(next.error)
    ensures next.Ok? ==> Midway(base, local, left - {key}, next.value.0, next.value.1)
  {
    assert key in merged.Keys + base.Keys + local.Keys;
    assert Lookup(merged, key) == Lookup(base, key);
    if key == FORWARDS && Forwards(local) {
      ForwardsFit(base, local, left, merged, overrides, next);
    } else {
      OneMoreKey(base, local, left, key, merged, next.value.0, overrides, next.value.1);
    }
  }

  lemma ForwardsFit(base: Mapping, local: Mapping, left: set<Value>, merged: Mapping, overrides: Overrides,
                    next: Result<(Mapping, Overrides), Error>)
    requires Midway(base, local, left, merged, overrides) && FORWARDS in left && left <= local.Keys && Forwards(local)
    requires TopStep(merged, FORWARDS, local[FORWARDS], overrides, next) && Lookup(merged, FORWARDS) == Lookup(base, FORWARDS)
    ensures next.Err? ==> ConfigMerged(Map(base), Map(local)) == Err(next.error)
    ensures next.Ok? ==> Midway(base, local, left - {FORWARDS}, next.value.0, next.value.1)
  {
    assert SharedForwards(merged) == SharedForwards(base);
    if next.Ok? {
      OneMoreKey(base, local, left, FORWARDS, merged, next.value.0, overrides, next.value.1);
    }
  }

  /** `merge_config`, the top-level keys in any order. */
  method MergeConfig(base: Value, local: Value) returns (r: Result<(Value, Overrides), Error>)
    ensures r == ConfigMerged(base, local)
  {
    if !base.Map? || !local.Map? {
      return Err(NotAMapping);
    }
    var merged, overrides := base.entries, Overrides(map[], map[]);
    var left := local.entries.Keys;
    while left != {}
      invariant left <= local.entries.Keys
      invariant Midway(base.entries, local.entries, left, merged, overrides)
    {
      var key :| key in left;
      var next := MergeTopLevel(merged, key, local.entries[key], overrides);
      StepFits(base.entries, local.entries, left, key, merged, overrides, next);
      if next.Err? {
        return Err(next.error);
      }
      merged, overrides := next.value.0, next.value.1;
      left := left - {key};
    }
    Arrived(base.entries, local.entries, merged, overrides);
    return Ok((Map(merged), overrides));
  }

  lemma Arrived(base: Mapping, local: Mapping, merged: Mapping, overrides: Overrides)
    requires Midway(base, local, {}, merged, overrides)
    ensures ConfigMerged(Map(base), Map(local)) == Ok((Map(merged), overrides))
  {
    var goal := MergedForwards(base, local);
    forall k
      ensures Lookup(merged, k) == Lookup(TopMapping(base, local, goal.value.0), k)
    {
    }
    SameMapping(merged, TopMapping(base, local, goal.value.0));
  }

  method MergeTopLevel(base: Mapping, key: Value, value: Value, overrides: Overrides) returns (r: Result<(Mapping, Overrides), Error>)
    ensures TopStep(base, key, value, overrides, r)
  {
    if key == SERVICES && value.Map? {
      var section, services := MergeServices(Section(Lookup(base, key)), value.entries);
      assert Map(value.entries) == value;
      return Ok((base[key := Map(section)], overrides.(services := services)));
    } else if key == FORWARDS && value.Seq? {
      var forwards := MergeForwards(SharedForwards(base), value.items);
      if forwards.Err? {
        return Err(forwards.error);
      }
      return Ok((base[key := Seq(forwards.value.0)], overrides.(forwards := forwards.value.1)));
    } else {
      var merged := MergeEntry(base, key, value);
      return Ok((merged, overrides));
    }
  }

  /** A shared `services` of another kind is emptied, not kept, before local services go in. */
  function Prepared(base: Mapping, local: Mapping): Mapping
  {
    if Services(local) && SERVICES in base && !base[SERVICES].Map? then base - {SERVICES} else base
  }

  /** But for the port-forwards, the merged document is the plain overlay, so the path-by-path law holds of it. */
  lemma ConfigPathByPath(base: Mapping, local: Mapping, path: Path)
    requires ConfigMerged(Map(base), Map(local)).Ok? && (path == [] || path[0] != FORWARDS || !Forwards(local))
    ensures path != [] ==> At(Some(ConfigMerged(Map(base), Map(local)).value.0), path) == At(Merged(Some(Map(Prepared(base, local))), Map(local)), path)
  {
    if path != [] {
      ConfigAtKey(base, local, path[0]);
    }
  }

  lemma ConfigAtKey(base: Mapping, local: Mapping, k: Value)
    requires ConfigMerged(Map(base), Map(local)).Ok? && (k != FORWARDS || !Forwards(local))
    ensures Lookup(ConfigMerged(Map(base), Map(local)).value.0.entries, k) == Lookup(Overlay(Prepared(base, local), Map(local)), k)
  {
    OverlayAt(Prepared(base, local), Map(local), k);
    if k == SERVICES && Services(local) {
      assert Section(Lookup(base, k)) == Section(Lookup(Prepared(base, local), k));
    } else {
      assert Lookup(Prepared(base, local), k) == Lookup(base, k);
    }
  }

  /** The document's forwards and their reports are those of the merged lists; nothing else can fail on two mappings. */
  lemma ConfigForwards(base: Mapping, local: Mapping)
    ensures var r := ConfigMerged(Map(base), Map(local));
            var shared := if FORWARDS in base && base[FORWARDS].Seq? then base[FORWARDS].items else [];
            if FORWARDS in local && local[FORWARDS].Seq? then
              match ForwardsMerged(shared, local[FORWARDS].items)
              case Err(e) => r == Err(e)
              case Ok((list, reports)) =>
                r.Ok? && At(Some(r.value.0), [FORWARDS]) == Some(Seq(list)) && r.value.1.forwards == reports
            else
              r.Ok? && r.value.1.forwards == map[]
  {
  }

  /** The first local entry that is no mapping or has no key fails the list, and no other does. */
  lemma {:induction false} FirstBadFails(base: seq<Value>, local: seq<Value>)
    ensures match ForwardsMerged(base, local)
            case Ok(_) => forall i | 0 <= i < |local| :: KeyOf(local[i]).Some?
            case Err(e) =>
              exists i | 0 <= i < |local| ::
                (if local[i].Map? then KeyOf(local[i]).None? && e == ForwardNeedsName(i) else e == ForwardNotAMapping(i))
                && forall j | 0 <= j < i :: KeyOf(local[j]).Some?
  {
    if local != [] {
      var i := |local| - 1;
      FirstBadFails(base, local[..i]);
      if ForwardsMerged(base, local[..i]).Ok? {
        assert forall j | 0 <= j < i :: KeyOf(local[j]).Some?;
      } else {
        var e := ForwardsMerged(base, local[..i]).error;
        var k :| 0 <= k < i
          && (if local[..i][k].Map? then KeyOf(local[..i][k]).None? && e == ForwardNeedsName(k) else e == ForwardNotAMapping(k))
          && forall j | 0 <= j < k :: KeyOf(local[..i][j]).Some?;
        assert local[..i][k] == local[k] && forall j | 0 <= j < k :: local[..i][j] == local[j];
      }
    }
  }

  lemma TwoKeys(m: Mapping, a: Value, b: Value)
    ensures At(Some(Map(m)), [a, b]) == if a in m && m[a].Map? then Lookup(m[a].entries, b) else None
  {
    assert [a, b][1..] == [b] && [b][1..] == [];
    if a in m && m[a].Map? {
      assert At(Some(m[a]), [b]) == At(Lookup(m[a].entries, b), []);
    }
  }

  /** The services reported are exactly the local ones with a string name that are not null; each is in the merged document. */
  lemma ReportedServices(base: Mapping, local: Mapping, name: string)
    requires ConfigMerged(Map(base), Map(local)).Ok?
    ensures var (merged, overrides) := ConfigMerged(Map(base), Map(local)).value;
            var said := At(Some(Map(local)), [SERVICES, Str(name)]);
            var got := At(Some(merged), [SERVICES, Str(name)]);
            && (name in overrides.services <==> said.Some? && said.value != Null)
            && (name in overrides.services ==> got.Some? && overrides.services[name] == Fields(said.value))
            && (Services(local) && name !in overrides.services ==>
                  got == if said.None? then At(Some(Map(base)), [SERVICES, Str(name)]) else None)
  {
    var (merged, overrides) := ConfigMerged(Map(base), Map(local)).value;
    TwoKeys(local, SERVICES, Str(name));
    TwoKeys(base, SERVICES, Str(name));
    TwoKeys(merged.entries, SERVICES, Str(name));
    if Services(local) {
      var services := local[SERVICES];
      assert Lookup(merged.entries, SERVICES) == Some(Map(Overlay(Section(Lookup(base, SERVICES)), services)));
      OverlayAt(Section(Lookup(base, SERVICES)), services, Str(name));
    }
  }
}
