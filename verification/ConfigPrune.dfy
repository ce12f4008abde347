/** Minimising a configuration against its base (tools/config_cli.py): pruning what equals the base, and the
    right-biased recursive merge that loading applies. */
module ConfigPrune {
  import opened Sequences

  datatype Scalar = Null | Bool(b: bool) | Int(i: int) | Float(r: real) | Text(s: string)

  /** A loaded configuration value; the order of a map's keys is not modelled. */
  datatype Value = Leaf(scalar: Scalar) | List(items: seq<Value>) | Dict(entries: map<string, Value>)

  // ------------------------------------------------------------ Python's equality

  function Number(s: Scalar): real
    requires s.Bool? || s.Int? || s.Float?
  {
    match s
    case Bool(b) => if b then 1.0 else 0.0
    case Int(i) => i as real
    case Float(r) => r
  }

  predicate Numeric(s: Scalar) {
    s.Bool? || s.Int? || s.Float?
  }

  /** Python's `==`: True, 1 and 1.0 are equal. */
  predicate PyEqual(x: Value, y: Value)
    decreases x
  {
    match x
    case Leaf(s) =>
      y.Leaf? && if Numeric(s) && Numeric(y.scalar) then Number(s) == Number(y.scalar) else s == y.scalar
    case List(items) =>
      y.List? && |items| == |y.items| && forall i :: 0 <= i < |items| ==> PyEqual(items[i], y.items[i])
    case Dict(entries) =>
      y.Dict? && entries.Keys == y.entries.Keys && forall k :: k in entries ==> PyEqual(entries[k], y.entries[k])
  }

  lemma {:induction false} PyEqualReflexive(x: Value)
    ensures PyEqual(x, x)
  {
    match x
    case Leaf(_) =>
    case List(items) =>
      forall i | 0 <= i < |items| ensures PyEqual(items[i], items[i]) { PyEqualReflexive(items[i]); }
    case Dict(entries) =>
      forall k | k in entries ensures PyEqual(entries[k], entries[k]) { PyEqualReflexive(entries[k]); }
  }

  // ------------------------------------------------------------ merging

  /** A list meets a map. */
  predicate OtherKind(x: Value, y: Value) {
    (x.List? && y.Dict?) || (x.Dict? && y.List?)
  }

  /** Somewhere a list would be merged with a map, which OmegaConf refuses with a TypeError. */
  predicate Clash(base: Value, over: Value)
    decreases over
  {
    if base.Dict? && over.Dict? then
      exists k :: k in over.entries && k in base.entries && Clash(base.entries[k], over.entries[k])
    else OtherKind(base, over)
  }

  /** The merge where nothing clashes: maps are merged key by key, anything else is replaced. */
  function Merge(base: Value, over: Value): Value
    decreases over
  {
    if base.Dict? && over.Dict? then
      Dict(map k | k in base.entries.Keys + over.entries.Keys ::
        if k !in over.entries then base.entries[k]
        else if k !in base.entries then over.entries[k]
        else Merge(base.entries[k], over.entries[k]))
    else over
  }

  /** The merge; None is the TypeError. */
  function Merged(base: Value, over: Value): Option<Value> {
    if Clash(base, over) then None else Some(Merge(base, over))
  }

  // ------------------------------------------------------------ pruning

  datatype Pruned = Remove | Keep(value: Value)

  predicate IsEmpty(v: Value) {
    v == Dict(map[]) || v == List([])
  }

  /** The recursion that drops what equals the base. Two maps always give a map; a key is dropped when its value is
      removed or comes out empty. */
  function Prune(a: Value, b: Value): Pruned
    decreases a, 0
  {
    if a.Dict? && b.Dict? then
      Keep(Dict(map k | k in a.entries && KeepsKey(a.entries[k], k, b.entries) ::
        PrunedEntry(a.entries[k], k, b.entries)))
    else if PyEqual(a, b) then Remove
    else Keep(a)
  }

  predicate KeepsKey(x: Value, k: string, base: map<string, Value>)
    decreases x, 1
  {
    k !in base || (Prune(x, base[k]).Keep? && !IsEmpty(Prune(x, base[k]).value))
  }

  function PrunedEntry(x: Value, k: string, base: map<string, Value>): Value
    requires KeepsKey(x, k, base)
    decreases x, 2
  {
    if k !in base then x else Prune(x, base[k]).value
  }

  // ------------------------------------------------------------ meaning preserved

  /** Every override that pruning would lose is absent: over a value that is not Python-equal, no empty list and no
      empty map (unless both are maps), and under Python equality only identical values. */
  predicate Lossless(a: Value, b: Value)
    requires a.Dict? && b.Dict?
    decreases a
  {
    forall k :: k in a.entries && k in b.entries ==>
      var (x, y) := (a.entries[k], b.entries[k]);
      if x.Dict? && y.Dict? then Lossless(x, y)
      else if PyEqual(x, y) then x == y
      else !IsEmpty(x)
  }

  /** A clash that pruning leaves: of a list or map that is not empty. */
  predicate KeptClash(a: Value, b: Value)
    decreases a
  {
    if a.Dict? && b.Dict? then
      exists k :: k in a.entries && k in b.entries && KeptClash(a.entries[k], b.entries[k])
    else OtherKind(a, b) && !IsEmpty(a)
  }

  /** Merging key by key. */
  function MergedAt(base: map<string, Value>, over: map<string, Value>, k: string): Value
    requires k in base || k in over
  {
    if k !in over then base[k] else if k !in base then over[k] else Merge(base[k], over[k])
  }

  lemma MergeAt(base: Value, over: Value, k: string)
    requires base.Dict? && over.Dict?
    ensures Merge(base, over).Dict?
    ensures k in Merge(base, over).entries <==> k in base.entries || k in over.entries
    ensures k in Merge(base, over).entries ==> Merge(base, over).entries[k] == MergedAt(base.entries, over.entries, k)
  {
  }

  lemma PruneAt(a: Value, b: Value, k: string)
    requires a.Dict? && b.Dict?
    ensures Prune(a, b).Keep? && Prune(a, b).value.Dict?
    ensures var p := Prune(a, b).value.entries;
            && (k in p <==> k in a.entries && KeepsKey(a.entries[k], k, b.entries))
            && (k in p ==> p[k] == PrunedEntry(a.entries[k], k, b.entries))
  {
  }

  lemma MergeNothing(b: Value)
    requires b.Dict?
    ensures Merge(b, Dict(map[])) == b
  {
    assert Merge(b, Dict(map[])).entries == b.entries;
  }

  lemma MergeIntoNothing(b: Value)
    requires b.Dict?
    ensures Merge(Dict(map[]), b) == b
  {
    assert Merge(Dict(map[]), b).entries == b.entries;
  }

  /** Where nothing clashes, pruning keeps the meaning exactly when no override is lost. */
  lemma {:induction false} MergePreservesIff(a: Value, b: Value)
    requires a.Dict? && b.Dict?
    ensures Prune(a, b).Keep? && Prune(a, b).value.Dict?
    ensures Merge(b, Prune(a, b).value) == Merge(b, a) <==> Lossless(a, b)
    decreases a, 1
  {
    PruneAt(a, b, "");
    var p := Prune(a, b).value;
    var (whole, pruned) := (Merge(b, a).entries, Merge(b, p).entries);
    forall k | k in a.entries || k in b.entries
      ensures k in whole && k in pruned
      ensures whole[k] == pruned[k] <==> LosslessAt(a.entries, b.entries, k)
    {
      MergeAt(b, a, k);
      MergeAt(b, p, k);
      PruneAt(a, b, k);
      if k in a.entries && k in b.entries { SharedKey(a, b, k); }
    }
    forall k ensures (k in whole <==> k in a.entries || k in b.entries) && (k in pruned <==> k in whole) {
      MergeAt(b, a, k);
      MergeAt(b, p, k);
      PruneAt(a, b, k);
    }
    hide Merge, Prune, LosslessAt;
    assert whole == pruned <==> forall k :: k in whole ==> LosslessAt(a.entries, b.entries, k);
    LosslessKeys(a, b);
  }

  predicate LosslessAt(a: map<string, Value>, b: map<string, Value>, k: string) {
    k in a && k in b ==>
      if a[k].Dict? && b[k].Dict? then Lossless(a[k], b[k])
      else if PyEqual(a[k], b[k]) then a[k] == b[k]
      else !IsEmpty(a[k])
  }

  lemma LosslessKeys(a: Value, b: Value)
    requires a.Dict? && b.Dict?
    ensures Lossless(a, b) <==> forall k :: k in a.entries || k in b.entries ==> LosslessAt(a.entries, b.entries, k)
  {
  }

  /** A key both have: pruned or not, it loads the same exactly when it is lossless. */
  lemma {:induction false} SharedKey(a: Value, b: Value, k: string)
    requires a.Dict? && b.Dict? && k in a.entries && k in b.entries
    requires Prune(a, b).Keep? && Prune(a, b).value.Dict?
    ensures MergedAt(b.entries, Prune(a, b).value.entries, k) == MergedAt(b.entries, a.entries, k)
       <==> LosslessAt(a.entries, b.entries, k)
    decreases a, 0
  {
    PruneAt(a, b, k);
    var (x, y) := (a.entries[k], b.entries[k]);
    if x.Dict? && y.Dict? {
      MergePreservesIff(x, y);
      MergeNothing(y);
    } else {
      PyEqualReflexive(x);
    }
  }

  /** Pruning keeps a clash exactly when it is not of an empty list or map. */
  lemma {:induction false} PruneKeepsClash(a: Value, b: Value)
    requires a.Dict? && b.Dict?
    ensures Prune(a, b).Keep? && Prune(a, b).value.Dict?
    ensures Clash(b, Prune(a, b).value) <==> KeptClash(a, b)
    decreases a
  {
    PruneAt(a, b, "");
    var p := Prune(a, b).value;
    forall k | k in a.entries && k in b.entries
      ensures (k in p.entries && Clash(b.entries[k], p.entries[k])) <==> KeptClash(a.entries[k], b.entries[k])
    {
      PruneAt(a, b, k);
      var (x, y) := (a.entries[k], b.entries[k]);
      if x.Dict? && y.Dict? { PruneKeepsClash(x, y); }
    }
    forall k | k in p.entries ensures k in a.entries { PruneAt(a, b, k); }
  }

  /** A clash that pruning leaves was there before; one that it does not leave is a lost override. */
  lemma {:induction false} KeptOrLost(a: Value, b: Value)
    requires a.Dict? && b.Dict?
    ensures KeptClash(a, b) ==> Clash(b, a)
    ensures Clash(b, a) && !KeptClash(a, b) ==> !Lossless(a, b)
    decreases a
  {
    forall k | k in a.entries && k in b.entries
      ensures KeptClash(a.entries[k], b.entries[k]) ==> Clash(b.entries[k], a.entries[k])
      ensures Clash(b.entries[k], a.entries[k]) && !KeptClash(a.entries[k], b.entries[k]) ==>
        !LosslessAt(a.entries, b.entries, k)
    {
      if a.entries[k].Dict? && b.entries[k].Dict? { KeptOrLost(a.entries[k], b.entries[k]); }
    }
    LosslessKeys(a, b);
  }

  /** Loading the pruned map gives what loading the original gives, an error included, exactly when no override is lost
      or a clash is left that fails both. */
  lemma PrunePreservesIff(a: Value, b: Value)
    requires a.Dict? && b.Dict?
    ensures Prune(a, b).Keep? && Prune(a, b).value.Dict?
    ensures Merged(b, Prune(a, b).value) == Merged(b, a) <==> Lossless(a, b) || KeptClash(a, b)
  {
    hide Merge, Clash, KeptClash, Lossless, Prune;
    MergePreservesIff(a, b);
    PruneKeepsClash(a, b);
    KeptOrLost(a, b);
  }

  /** Minimising `key: x` over a base with `key: y` changes what is loaded. */
  ghost predicate Loses(x: Value, y: Value) {
    var (a, b) := (Dict(map["key" := x]), Dict(map["key" := y]));
    PruneAt(a, b, "key");
    Merged(b, Prune(a, b).value) != Merged(b, a)
  }

  /** The ways an override is lost: an empty list over other contents, an empty map over something else than a map, and
      a value Python holds equal to the base's. An empty list over a map, or an empty map over a list, is an error when
      loaded, and the minimised file loads. */
  lemma LostOverrides()
    ensures Loses(List([]), List([Leaf(Int(1))]))
    ensures Loses(Dict(map[]), Leaf(Int(1)))
    ensures Loses(Leaf(Bool(true)), Leaf(Int(1)))
    ensures Loses(List([]), Dict(map["a" := Leaf(Int(1))]))
  {
    LostOverride(List([]), List([Leaf(Int(1))]));
    LostOverride(Dict(map[]), Leaf(Int(1)));
    LostOverride(Leaf(Bool(true)), Leaf(Int(1)));
    LostOverride(List([]), Dict(map["a" := Leaf(Int(1))]));
  }

  lemma LostOverride(x: Value, y: Value)
    requires !(x.Dict? && y.Dict?) && if PyEqual(x, y) then x != y && !OtherKind(x, y) else IsEmpty(x)
    ensures Loses(x, y)
  {
    var (a, b) := (Dict(map["key" := x]), Dict(map["key" := y]));
    PrunePreservesIff(a, b);
    assert "key" in a.entries && "key" in b.entries;
  }

  /** Pruning twice is pruning once. */
  lemma {:induction false} PruneTwice(a: Value, b: Value)
    requires a.Dict? && b.Dict?
    ensures Prune(a, b).Keep? && Prune(Prune(a, b).value, b) == Prune(a, b)
    decreases a
  {
    PruneAt(a, b, "");
    var p := Prune(a, b).value;
    PruneAt(p, b, "");
    var q := Prune(p, b).value;
    forall k ensures k in q.entries <==> k in p.entries
             ensures k in p.entries ==> q.entries[k] == p.entries[k]
    {
      PruneAt(a, b, k);
      PruneAt(p, b, k);
      if k in p.entries && k in b.entries && a.entries[k].Dict? && b.entries[k].Dict? {
        PruneTwice(a.entries[k], b.entries[k]);
      }
    }
    assert q.entries == p.entries;
  }

  /** Nothing superfluous is left: a pruned map that is not empty changes the base. */
  lemma {:induction false} PrunedMatters(a: Value, b: Value)
    requires a.Dict? && b.Dict?
    ensures Prune(a, b).Keep? && Prune(a, b).value.Dict?
    ensures Prune(a, b).value.entries != map[] ==> Merge(b, Prune(a, b).value) != b
    ensures Prune(a, b).value.entries != map[] ==> Merged(b, Prune(a, b).value) != Some(b)
    decreases a
  {
    PruneAt(a, b, "");
    var p := Prune(a, b).value;
    if k :| k in p.entries {
      PruneAt(a, b, k);
      MergeAt(b, p, k);
      if k in b.entries {
        if a.entries[k].Dict? && b.entries[k].Dict? {
          PrunedMatters(a.entries[k], b.entries[k]);
        } else {
          PyEqualReflexive(a.entries[k]);
        }
      }
    } else {
      assert p.entries == map[];
    }
  }

  // ------------------------------------------------------------ files

  /** A file's `defaults`: one parent, or a list of them. */
  datatype Defaults = NoDefaults | One(parent: string) | Many(parents: seq<string>)

  /** A file: its `defaults` and the rest of its map. `loaded` gives a parent's configuration, itself loaded, if it
      loads. */
  datatype File = File(defaults: Defaults, entries: map<string, Value>)

  /** The parents merged in order; None when one of them does not load or they clash. */
  function MergeAll(parents: seq<string>, loaded: string -> Option<map<string, Value>>): (r: Option<Value>)
    ensures r.Some? ==> r.value.Dict?
  {
    if parents == [] then Some(Dict(map[]))
    else
      var last := |parents| - 1;
      var (before, parent) := (MergeAll(parents[..last], loaded), loaded(parents[last]));
      if before.None? || parent.None? then None
      else
        MergeAt(before.value, Dict(parent.value), "");
        Merged(before.value, Dict(parent.value))
  }

  function MergeOver(base: Option<Value>, entries: map<string, Value>): Option<Value> {
    if base.None? then None else Merged(base.value, Dict(entries))
  }

  function Loaded(f: File, loaded: string -> Option<map<string, Value>>): Option<Value> {
    match f.defaults
    case NoDefaults => Some(Dict(f.entries))
    case One(parent) => MergeOver(MergeAll([parent], loaded), f.entries)
    case Many(parents) => MergeOver(MergeAll(parents, loaded), f.entries)
  }

  lemma {:induction false} FailsEarly(parents: seq<string>, loaded: string -> Option<map<string, Value>>, i: nat)
    requires i <= |parents| && MergeAll(parents[..i], loaded).None?
    ensures MergeAll(parents, loaded).None?
    decreases |parents|
  {
    if i == |parents| {
      assert parents[..i] == parents;
    } else {
      assert parents[..|parents| - 1][..i] == parents[..i];
      FailsEarly(parents[..|parents| - 1], loaded, i);
    }
  }

  /** Loading: the parents are merged in order, then the file itself. */
  method Load(f: File, loaded: string -> Option<map<string, Value>>) returns (r: Option<Value>)
    ensures r == Loaded(f, loaded)
  {
    if f.defaults.NoDefaults? { return Some(Dict(f.entries)); }
    var parents := if f.defaults.One? then [f.defaults.parent] else f.defaults.parents;
    var base := Dict(map[]);
    for i := 0 to |parents|
      invariant MergeAll(parents[..i], loaded) == Some(base)
    {
      assert parents[..i + 1][..i] == parents[..i];
      var parent := loaded(parents[i]);
      if parent.None? || Clash(base, Dict(parent.value)) {
        FailsEarly(parents, loaded, i + 1);
        return None;
      }
      base := Merge(base, Dict(parent.value));
    }
    assert parents[..|parents|] == parents;
    return Merged(base, Dict(f.entries));
  }

  datatype Minimized = NeedsOneParent | ParentFails | Minimized(file: File)

  /** Minimising against the single parent: its loaded configuration is the base, and `defaults` stays. */
  function Minimize(f: File, loaded: string -> Option<map<string, Value>>): Minimized {
    if !f.defaults.One? then NeedsOneParent
    else if loaded(f.defaults.parent).None? then ParentFails
    else
      var base := Dict(loaded(f.defaults.parent).value);
      PruneAt(Dict(f.entries), base, "");
      Minimized(File(f.defaults, Prune(Dict(f.entries), base).value.entries))
  }

  lemma OneParent(parent: string, loaded: string -> Option<map<string, Value>>)
    requires loaded(parent).Some?
    ensures MergeAll([parent], loaded) == Some(Dict(loaded(parent).value))
  {
    MergeIntoNothing(Dict(loaded(parent).value));
    assert [parent][..0] == [];
    assert MergeAll([], loaded) == Some(Dict(map[]));
  }

  /** A minimised file loads to the same configuration, or fails like the original, exactly when no override is lost or
      a clash is left. */
  lemma MinimizeKeepsMeaningIff(f: File, loaded: string -> Option<map<string, Value>>)
    requires f.defaults.One? && loaded(f.defaults.parent).Some?
    ensures Minimize(f, loaded).Minimized?
    ensures var (a, b) := (Dict(f.entries), Dict(loaded(f.defaults.parent).value));
            Loaded(Minimize(f, loaded).file, loaded) == Loaded(f, loaded) <==> Lossless(a, b) || KeptClash(a, b)
  {
    OneParent(f.defaults.parent, loaded);
    PrunePreservesIff(Dict(f.entries), Dict(loaded(f.defaults.parent).value));
  }

  /** Minimising a minimised file changes nothing. */
  lemma MinimizeTwice(f: File, loaded: string -> Option<map<string, Value>>)
    requires f.defaults.One? && loaded(f.defaults.parent).Some?
    ensures Minimize(Minimize(f, loaded).file, loaded) == Minimize(f, loaded)
  {
    PruneTwice(Dict(f.entries), Dict(loaded(f.defaults.parent).value));
  }
}
