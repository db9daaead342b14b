/** The merge of src/config_local/merge.rs on parsed YAML: a local document over a shared one. */
module YamlMerge {
  import opened Basics

  datatype Value = Null | Bool(b: bool) | Number(text: string) | Str(s: string) | Seq(items: seq<Value>) | Map(entries: Mapping)

  type Mapping = map<Value, Value>

  function Lookup(m: Mapping, k: Value): Option<Value> { if k in m then Some(m[k]) else None }

  // ----- what a merge leaves -----

  /** What an entry holds once `local` is merged over what it held, if anything. */
  function Merged(base: Option<Value>, local: Value): Option<Value>
    decreases local, 2
  {
    match local
    case Null => None
    case Map(_) =>
      // Over another kind of value a mapping is stored as it is, nulls included.
      if base.Some? && !base.value.Map? then Some(local)
      else Some(Map(Overlay(if base.Some? then base.value.entries else map[], local)))
    case _ => Some(local)
  }

  function After(base: Mapping, local: Value, k: Value): Option<Value>
    requires local.Map?
    decreases local, 0
  {
    if k in local.entries then Merged(Lookup(base, k), local.entries[k]) else Lookup(base, k)
  }

  function Overlay(base: Mapping, local: Value): Mapping
    requires local.Map?
    decreases local, 1
  {
    map k | k in base.Keys + local.entries.Keys && After(base, local, k).Some? :: After(base, local, k).value
  }

  lemma OverlayAt(base: Mapping, local: Value, k: Value)
    requires local.Map?
    ensures Lookup(Overlay(base, local), k) == After(base, local, k)
  {
  }

  lemma SameMapping(a: Mapping, b: Mapping)
    requires forall k :: Lookup(a, k) == Lookup(b, k)
    ensures a == b
  {
    forall k
      ensures k in a <==> k in b
      ensures k in a && k in b ==> a[k] == b[k]
    {
      assert Lookup(a, k) == Lookup(b, k);
    }
  }

  // ----- the merge functions, in any order of the local entries -----

  function PartOf(local: Mapping, left: set<Value>): Value { Map(local - left) }

  method MergeMapping(base: Mapping, local: Mapping) returns (merged: Mapping)
    ensures merged == Overlay(base, Map(local))
    decreases Map(local), 0
  {
    merged := base;
    var left := local.Keys;
    NothingYet(base, local);
    while left != {}
      invariant left <= local.Keys
      invariant merged == Overlay(base, PartOf(local, left))
    {
      var key :| key in left;
      assert local[key] < Map(local);
      ghost var before := merged;
      merged := MergeEntry(merged, key, local[key]);
      NextEntry(base, local, left, key, before, merged);
      left := left - {key};
    }
    assert local - {} == local;
  }

  lemma NothingYet(base: Mapping, local: Mapping)
    ensures Overlay(base, PartOf(local, local.Keys)) == base
  {
    var none := PartOf(local, local.Keys);
    forall k
      ensures Lookup(Overlay(base, none), k) == Lookup(base, k)
    {
      OverlayAt(base, none, k);
    }
    SameMapping(Overlay(base, none), base);
  }

  /** One entry put over what the others have left. */
  lemma NextEntry(base: Mapping, local: Mapping, left: set<Value>, key: Value, before: Mapping, after: Mapping)
    requires left <= local.Keys && key in left && before == Overlay(base, PartOf(local, left))
    requires forall k | k != key :: Lookup(after, k) == Lookup(before, k)
    requires Lookup(after, key) == Merged(Lookup(before, key), local[key])
    ensures after == Overlay(base, PartOf(local, left - {key}))
  {
    OverlayAt(base, PartOf(local, left), key);
    var now := PartOf(local, left - {key});
    forall k
      ensures Lookup(after, k) == Lookup(Overlay(base, now), k)
    {
      OverlayAt(base, now, k);
      OverlayAt(base, PartOf(local, left), k);
    }
    SameMapping(after, Overlay(base, now));
  }

  method MergeEntry(base: Mapping, key: Value, value: Value) returns (merged: Mapping)
    ensures forall k | k != key :: Lookup(merged, k) == Lookup(base, k)
    ensures Lookup(merged, key) == Merged(Lookup(base, key), value)
    decreases value, 2
  {
    if value == Null {
      return base - {key};
    }
    if key in base {
      var existing := MergeValue(base[key], value);
      merged := base[key := existing];
    } else if value.Map? {
      var entries := MergeMapping(map[], value.entries);
      merged := base[key := Map(entries)];
    } else {
      merged := base[key := value];
    }
  }

  method MergeValue(base: Value, local: Value) returns (merged: Value)
    requires local != Null
    ensures Merged(Some(base), local) == Some(merged)
    decreases local, 1
  {
    if base.Map? && local.Map? {
      assert Map(local.entries) == local;
      var entries := MergeMapping(base.entries, local.entries);
      merged := Map(entries);
    } else {
      merged := local;
    }
  }

  // ----- path by path -----

  type Path = seq<Value>

  function At(v: Option<Value>, path: Path): Option<Value>
    decreases |path|
  {
    if path == [] then v
    else if v.Some? && v.value.Map? then At(Lookup(v.value.entries, path[0]), path[1..])
    else None
  }

  /** The local document has mappings down to a place where the path's next key is missing. */
  predicate Untouched(local: Value, path: Path)
    decreases |path|
  {
    path != [] && local.Map?
    && (path[0] in local.entries ==> Untouched(local.entries[path[0]], path[1..]))
  }

  /** On the way, a local mapping sits over a shared value of another kind. */
  predicate OverOther(base: Option<Value>, local: Value, path: Path)
    decreases |path|
  {
    && path != [] && local.Map? && base.Some?
    && (!base.value.Map?
        || (path[0] in local.entries && OverOther(Lookup(base.value.entries, path[0]), local.entries[path[0]], path[1..])))
  }

  lemma {:induction false} UntouchedSaysNothing(local: Value, path: Path)
    ensures Untouched(local, path) ==> At(Some(local), path) == None
    decreases |path|
  {
    if Untouched(local, path) && path[0] in local.entries {
      UntouchedSaysNothing(local.entries[path[0]], path[1..]);
    }
  }

  /**
   * What a merge leaves at a path: what the local document does not touch is
   * unchanged; a local value is there, below it nothing shared remains; a local
   * null leaves nothing, unless it came along with a mapping stored as it is.
   */
  predicate MergeLaw(base: Option<Value>, local: Value, merged: Option<Value>, path: Path)
  {
    var said, got := At(Some(local), path), At(merged, path);
    && (Untouched(local, path) ==> said == None && got == At(base, path))
    && (said == None && !Untouched(local, path) ==> got == None)
    && (said == Some(Null) ==> got == if OverOther(base, local, path) then Some(Null) else None)
    && (said.Some? && said.value.Map? ==> got.Some? && got.value.Map?)
    && (said.Some? && !said.value.Map? && said.value != Null ==> got == said)
  }

  /** The overlay follows the law at every path. */
  lemma {:induction false} PathByPath(base: Option<Value>, local: Value, path: Path)
    ensures MergeLaw(base, local, Merged(base, local), path)
    decreases |path|
  {
    UntouchedSaysNothing(local, path);
    if path != [] && local.Map? && (base.None? || base.value.Map?) {
      var entries := if base.Some? then base.value.entries else map[];
      OverlayAt(entries, local, path[0]);
      if path[0] in local.entries {
        PathByPath(Lookup(entries, path[0]), local.entries[path[0]], path[1..]);
      }
    }
  }

  // ----- merging twice -----

  /** A null somewhere among its mappings. */
  predicate HoldsNull(v: Value)
    decreases v
  {
    v.Map? && exists k <- v.entries :: v.entries[k] == Null || HoldsNull(v.entries[k])
  }

  /** A local mapping that holds a null sits over a shared value that is no mapping. */
  predicate NullOverOther(base: Option<Value>, local: Value)
    decreases local
  {
    && local.Map? && base.Some?
    && (if base.value.Map? then exists k <- local.entries :: NullOverOther(Lookup(base.value.entries, k), local.entries[k])
        else HoldsNull(local))
  }

  /** Over nothing, or over itself, a document loses its nulls. */
  lemma {:induction false} OverItself(local: Value)
    ensures Merged(Some(local), local) == Merged(None, local) == Merged(Merged(None, local), local)
    ensures local != Null ==> (Merged(None, local) == Some(local) <==> !HoldsNull(local))
  {
    if local.Map? {
      var once := Overlay(map[], local);
      forall k
        ensures Lookup(Overlay(local.entries, local), k) == Lookup(once, k) == Lookup(Overlay(once, local), k)
      {
        OverlayAt(local.entries, local, k);
        OverlayAt(map[], local, k);
        OverlayAt(once, local, k);
        if k in local.entries {
          OverItself(local.entries[k]);
        }
      }
      SameMapping(Overlay(local.entries, local), once);
      SameMapping(Overlay(once, local), once);
      NullsGo(local);
    }
  }

  lemma {:induction false} NullsGo(local: Value)
    requires local.Map?
    ensures Overlay(map[], local) == local.entries <==> !HoldsNull(local)
    decreases local, 0
  {
    var once := Overlay(map[], local);
    forall k <- local.entries
      ensures Lookup(once, k) == Some(local.entries[k]) <==> local.entries[k] != Null && !HoldsNull(local.entries[k])
    {
      OverlayAt(map[], local, k);
      if local.entries[k].Map? {
        NullsGo(local.entries[k]);
      }
    }
    if !HoldsNull(local) {
      forall k
        ensures Lookup(once, k) == Lookup(local.entries, k)
      {
        OverlayAt(map[], local, k);
      }
      SameMapping(once, local.entries);
    }
  }

  /** Merging the same local document again changes nothing exactly if it puts no null-holding mapping over another kind of value. */
  lemma {:induction false} Idempotent(base: Option<Value>, local: Value)
    ensures Merged(Merged(base, local), local) == Merged(base, local) <==> !NullOverOther(base, local)
    decreases local
  {
    if !local.Map? {
    } else if base.None? || !base.value.Map? {
      OverItself(local);
    } else {
      var once := Overlay(base.value.entries, local);
      var twice := Overlay(once, local);
      forall k
        ensures Lookup(twice, k) == Lookup(once, k) <==> !(k in local.entries && NullOverOther(Lookup(base.value.entries, k), local.entries[k]))
      {
        OverlayAt(base.value.entries, local, k);
        OverlayAt(once, local, k);
        if k in local.entries {
          Idempotent(Lookup(base.value.entries, k), local.entries[k]);
        }
      }
      if !NullOverOther(base, local) {
        SameMapping(twice, once);
      }
    }
  }

  lemma OneEntry(base: Mapping, k: Value, v: Value)
    requires base.Keys <= {k}
    ensures var was := Merged(Lookup(base, k), v);
            Overlay(base, Map(map[k := v])) == if was.Some? then map[k := was.value] else map[]
  {
    var was := Merged(Lookup(base, k), v);
    var after: Mapping := if was.Some? then map[k := was.value] else map[];
    forall j
      ensures Lookup(Overlay(base, Map(map[k := v])), j) == Lookup(after, j)
    {
      OverlayAt(base, Map(map[k := v]), j);
    }
    SameMapping(Overlay(base, Map(map[k := v])), after);
  }

  /** Over `a: 1`, merging `a: {b: null}` once stores the null, and merging it again removes it. */
  lemma SecondMergeDiffers(a: Value, base: Mapping, inner: Value, local: Mapping)
    requires a == Str("a") && base == map[a := Number("1")]
    requires inner == Map(map[Str("b") := Null]) && local == map[a := inner]
    ensures NullOverOther(Some(Map(base)), Map(local))
    ensures var once := Merged(Some(Map(base)), Map(local));
            && once == Some(Map(local))
            && Merged(once, Map(local)) == Some(Map(map[a := Map(map[])]))
  {
    assert inner.entries[Str("b")] == Null && HoldsNull(inner);
    assert NullOverOther(Lookup(base, a), local[a]);
    OneEntry(base, a, inner);
    OneEntry(inner.entries, Str("b"), Null);
    OneEntry(local, a, inner);
  }
}
