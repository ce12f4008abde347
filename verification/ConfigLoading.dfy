/** What a loaded configuration holds (tools/config_cli.py): at every path the value of the last layer that sets it,
    where the layers are a file's parents in order and then the file itself. */
module ConfigLoading {
  import opened ConfigPrune
  import opened Sequences

  // ------------------------------------------------------------ paths

  /** The value at a path of keys. */
  function Lookup(v: Value, path: seq<string>): Option<Value> {
    if path == [] then Some(v)
    else if v.Dict? && path[0] in v.entries then Lookup(v.entries[path[0]], path[1..])
    else None
  }

  /** On the way to the path, `v` has something that is not a map. */
  predicate CutsOff(v: Value, path: seq<string>) {
    path != [] && (!v.Dict? || (path[0] in v.entries && CutsOff(v.entries[path[0]], path[1..])))
  }

  /** `v` says nothing about the path. */
  predicate Untouched(v: Value, path: seq<string>) {
    Lookup(v, path).None? && !CutsOff(v, path)
  }

  /** What a merge has at a path: the two values merged where both have one, otherwise the one there is, and nothing of
      the base where the other configuration cuts it off. */
  lemma {:induction false} MergedLookup(base: Value, over: Value, path: seq<string>)
    ensures Lookup(Merge(base, over), path)
         == match Lookup(over, path) {
              case Some(y) =>
                var x := Lookup(base, path);
                if x.Some? then Some(Merge(x.value, y)) else Some(y)
              case None => if CutsOff(over, path) then None else Lookup(base, path)
            }
    decreases path
  {
    if path == [] {
    } else if base.Dict? && over.Dict? {
      var k := path[0];
      MergeAt(base, over, k);
      if k in base.entries && k in over.entries { MergedLookup(base.entries[k], over.entries[k], path[1..]); }
    }
  }

  /** A merge is refused exactly when somewhere a list meets a map. */
  lemma {:induction false} ClashIff(base: Value, over: Value)
    ensures Clash(base, over) <==> exists path :: ClashAt(base, over, path)
    decreases over
  {
    if base.Dict? && over.Dict? {
      if Clash(base, over) {
        var k :| k in over.entries && k in base.entries && Clash(base.entries[k], over.entries[k]);
        ClashIff(base.entries[k], over.entries[k]);
        var path :| ClashAt(base.entries[k], over.entries[k], path);
        assert ([k] + path)[1..] == path;
        assert ClashAt(base, over, [k] + path);
      }
      if path :| ClashAt(base, over, path) {
        var k := path[0];
        assert ClashAt(base.entries[k], over.entries[k], path[1..]);
        ClashIff(base.entries[k], over.entries[k]);
      }
    } else {
      assert ClashAt(base, over, []) <==> Clash(base, over);
    }
  }

  ghost predicate ClashAt(base: Value, over: Value, path: seq<string>) {
    var (x, y) := (Lookup(base, path), Lookup(over, path));
    x.Some? && y.Some? && OtherKind(x.value, y.value)
  }

  // ------------------------------------------------------------ layers

  function ParentsOf(f: File): seq<string> {
    match f.defaults
    case NoDefaults => []
    case One(parent) => [parent]
    case Many(parents) => parents
  }

  /** The configurations a file is merged from, the file's own entries last. */
  ghost predicate Layers(f: File, loaded: string -> Option<map<string, Value>>, layers: seq<Value>) {
    var parents := ParentsOf(f);
    && |layers| == |parents| + 1 && layers[|parents|] == Dict(f.entries)
    && forall i :: 0 <= i < |parents| ==> loaded(parents[i]).Some? && layers[i] == Dict(loaded(parents[i]).value)
  }

  function MergeLayers(layers: seq<Value>): Value {
    if layers == [] then Dict(map[])
    else Merge(MergeLayers(layers[..|layers| - 1]), layers[|layers| - 1])
  }

  lemma {:induction false} MergeAllIs(parents: seq<string>, loaded: string -> Option<map<string, Value>>,
                                      layers: seq<Value>)
    requires |layers| == |parents| && MergeAll(parents, loaded).Some?
    requires forall i :: 0 <= i < |parents| ==> loaded(parents[i]).Some? && layers[i] == Dict(loaded(parents[i]).value)
    ensures MergeAll(parents, loaded).value == MergeLayers(layers)
    decreases |parents|
  {
    if parents == [] {
    } else {
      var last := |parents| - 1;
      MergeAllIs(parents[..last], loaded, layers[..last]);
    }
  }

  lemma LoadedIs(f: File, loaded: string -> Option<map<string, Value>>, layers: seq<Value>)
    requires Layers(f, loaded, layers) && Loaded(f, loaded).Some?
    ensures Loaded(f, loaded).value == MergeLayers(layers)
  {
    var parents := ParentsOf(f);
    if f.defaults.NoDefaults? {
      MergeIntoNothing(layers[0]);
      assert layers[..0] == [];
    } else {
      MergeAllIs(parents, loaded, layers[..|parents|]);
    }
  }

  lemma {:induction false} LastOf(layers: seq<Value>, i: nat, path: seq<string>)
    requires i < |layers| && Lookup(layers[i], path).Some? && !Lookup(layers[i], path).value.Dict?
    requires forall j :: i < j < |layers| ==> Untouched(layers[j], path)
    ensures Lookup(MergeLayers(layers), path) == Lookup(layers[i], path)
    decreases |layers|
  {
    var last := |layers| - 1;
    MergedLookup(MergeLayers(layers[..last]), layers[last], path);
    if i == last {
    } else {
      LastOf(layers[..last], i, path);
    }
  }

  /** The last layer that sets a path wins: if it sets it to something that is not a map, that is what is loaded. The
      file's own entries, the last layer, win over every parent, and a later parent wins over an earlier one. */
  lemma LastLayerWins(f: File, loaded: string -> Option<map<string, Value>>, layers: seq<Value>, i: nat,
                      path: seq<string>)
    requires Layers(f, loaded, layers) && Loaded(f, loaded).Some?
    requires i < |layers| && Lookup(layers[i], path).Some? && !Lookup(layers[i], path).value.Dict?
    requires forall j :: i < j < |layers| ==> Untouched(layers[j], path)
    ensures Lookup(Loaded(f, loaded).value, path) == Lookup(layers[i], path)
  {
    LoadedIs(f, loaded, layers);
    LastOf(layers, i, path);
  }

  lemma {:induction false} NoneOf(layers: seq<Value>, path: seq<string>)
    requires path != [] && forall j :: 0 <= j < |layers| ==> Untouched(layers[j], path)
    ensures Lookup(MergeLayers(layers), path).None?
    decreases |layers|
  {
    if layers == [] {
    } else {
      var last := |layers| - 1;
      MergedLookup(MergeLayers(layers[..last]), layers[last], path);
      NoneOf(layers[..last], path);
    }
  }

  /** Nothing appears that no layer sets. */
  lemma NothingAppears(f: File, loaded: string -> Option<map<string, Value>>, layers: seq<Value>, path: seq<string>)
    requires Layers(f, loaded, layers) && Loaded(f, loaded).Some?
    requires path != [] && forall j :: 0 <= j < |layers| ==> Untouched(layers[j], path)
    ensures Lookup(Loaded(f, loaded).value, path).None?
  {
    LoadedIs(f, loaded, layers);
    NoneOf(layers, path);
  }

  /** Among the first `n` layers, one clashes with what is merged before it. */
  ghost predicate SomeClash(layers: seq<Value>, n: nat)
    requires n <= |layers|
  {
    exists i :: 0 <= i < n && Clash(MergeLayers(layers[..i]), layers[i])
  }

  lemma {:induction false} MergeAllFailsIff(parents: seq<string>, loaded: string -> Option<map<string, Value>>,
                                            layers: seq<Value>)
    requires |layers| == |parents|
    requires forall i :: 0 <= i < |parents| ==> loaded(parents[i]).Some? && layers[i] == Dict(loaded(parents[i]).value)
    ensures MergeAll(parents, loaded).None? <==> SomeClash(layers, |layers|)
    decreases |parents|
  {
    hide Clash, Merge;
    if parents == [] {
    } else {
      var last := |parents| - 1;
      MergeAllFailsIff(parents[..last], loaded, layers[..last]);
      ClashesBefore(layers, last);
      if MergeAll(parents[..last], loaded).Some? { MergeAllIs(parents[..last], loaded, layers[..last]); }
    }
  }

  lemma ClashesBefore(layers: seq<Value>, n: nat)
    requires n < |layers|
    ensures SomeClash(layers[..n], n) <==> SomeClash(layers, n)
    ensures SomeClash(layers, n + 1) <==> SomeClash(layers, n) || Clash(MergeLayers(layers[..n]), layers[n])
  {
    hide Clash, MergeLayers;
    assert forall i :: 0 <= i < n ==> layers[..n][..i] == layers[..i];
  }

  /** With all parents at hand, loading fails exactly when some layer clashes with those merged before it. */
  lemma LoadingFailsIff(f: File, loaded: string -> Option<map<string, Value>>, layers: seq<Value>)
    requires Layers(f, loaded, layers)
    ensures Loaded(f, loaded).None? <==> SomeClash(layers, |layers|)
  {
    hide Clash, Merge;
    var parents := ParentsOf(f);
    var n := |parents|;
    ClashesBefore(layers, n);
    MergeAllFailsIff(parents, loaded, layers[..n]);
    if f.defaults.NoDefaults? {
      NoClashWithNothing(layers);
    } else if MergeAll(parents, loaded).Some? {
      MergeAllIs(parents, loaded, layers[..n]);
    }
  }

  lemma NoClashWithNothing(layers: seq<Value>)
    requires |layers| == 1 && layers[0].Dict?
    ensures !SomeClash(layers, 1)
  {
  }

  /** Without one of its parents a file does not load. */
  lemma {:induction false} ParentMissing(parents: seq<string>, loaded: string -> Option<map<string, Value>>, i: nat)
    requires i < |parents| && loaded(parents[i]).None?
    ensures MergeAll(parents, loaded).None?
  {
    FailsEarly(parents, loaded, i + 1);
  }

  lemma MissingParentFails(f: File, loaded: string -> Option<map<string, Value>>, i: nat)
    requires i < |ParentsOf(f)| && loaded(ParentsOf(f)[i]).None?
    ensures Loaded(f, loaded).None?
  {
    ParentMissing(ParentsOf(f), loaded, i);
  }

  /** Parents {k: 1} and {k: 2}, in this order, load to {k: 2}. */
  lemma SecondParentWins(loaded: string -> Option<map<string, Value>>)
    requires loaded("a") == Some(map["k" := Leaf(Int(1))]) && loaded("b") == Some(map["k" := Leaf(Int(2))])
    ensures Loaded(File(Many(["a", "b"]), map[]), loaded) == Some(Dict(map["k" := Leaf(Int(2))]))
  {
    var (x, y) := (Dict(map["k" := Leaf(Int(1))]), Dict(map["k" := Leaf(Int(2))]));
    assert ["a", "b"][..1] == ["a"];
    OneParent("a", loaded);
    assert Merge(x, y).entries == y.entries;
    MergeNothing(y);
  }
}
