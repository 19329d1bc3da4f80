/** The applications of a source tree, place by place: how many there are, how deep, how many layers they have
    together, and every object they name. */
module SourcePlaces {
  import opened Basics
  import opened Upstream
  import opened Compiler
  import opened CompiledTree
  import opened Occurrences

  /** The subtree at a place. */
  function SourceAt(src: Source, place: Place): Option<Source>
    decreases |place|
  {
    if place == [] then Some(src)
    else if place[0] < |src.children| then SourceAt(src.children[place[0]].source, place[1..])
    else None
  }

  function Prefixed(i: nat, places: seq<Place>): (r: seq<Place>)
    ensures |r| == |places| && forall j :: 0 <= j < |places| ==> r[j] == [i] + places[j]
  {
    seq(|places|, j requires 0 <= j < |places| => [i] + places[j])
  }

  /** All places of a source tree, parents first. */
  function PlaceList(src: Source): seq<Place>
    decreases src, |src.children| + 1
  {
    [[]] + Below(src, |src.children|)
  }

  function Below(src: Source, count: nat): seq<Place>
    requires count <= |src.children|
    decreases src, count
  {
    if count == 0 then []
    else Below(src, count - 1) + Prefixed(count - 1, PlaceList(src.children[count - 1].source))
  }

  /** How many applications the tree has. */
  function Size(src: Source): nat
    decreases src, |src.children| + 1
  {
    1 + SizeBelow(src, |src.children|)
  }

  function SizeBelow(src: Source, count: nat): nat
    requires count <= |src.children|
    decreases src, count
  {
    if count == 0 then 0 else SizeBelow(src, count - 1) + Size(src.children[count - 1].source)
  }

  /** How many layers they have together. */
  function LayersOf(src: Source): nat
    decreases src, |src.children| + 1
  {
    |src.layers| + LayersBelow(src, |src.children|)
  }

  function LayersBelow(src: Source, count: nat): nat
    requires count <= |src.children|
    decreases src, count
  {
    if count == 0 then 0 else LayersBelow(src, count - 1) + LayersOf(src.children[count - 1].source)
  }

  lemma {:induction false} ListIs(src: Source)
    ensures PlaceList(src) == [[]] + Below(src, |src.children|)
  {
  }

  lemma {:induction false} SizeIs(src: Source)
    ensures |PlaceList(src)| == Size(src)
    decreases src, |src.children| + 1
  {
    SizeBelowIs(src, |src.children|);
  }

  lemma {:induction false} SizeBelowIs(src: Source, count: nat)
    requires count <= |src.children|
    ensures |Below(src, count)| == SizeBelow(src, count)
    decreases src, count
  {
    hide PlaceList, Size;
    if count > 0 {
      SizeBelowIs(src, count - 1);
      SizeIs(src.children[count - 1].source);
    }
  }

  // ---------- Membership ----------

  lemma {:induction false} PrefixedHas(i: nat, places: seq<Place>, place: Place)
    ensures place in Prefixed(i, places) <==> place != [] && place[0] == i && place[1..] in places
  {
    if place in Prefixed(i, places) {
      var j :| 0 <= j < |places| && Prefixed(i, places)[j] == place;
      assert place[1..] == places[j];
    }
    if place != [] && place[0] == i && place[1..] in places {
      var j :| 0 <= j < |places| && places[j] == place[1..];
      assert Prefixed(i, places)[j] == place;
    }
  }

  lemma {:induction false} ListHas(src: Source, place: Place)
    ensures place in PlaceList(src) <==> SourceAt(src, place).Some?
    decreases src, |src.children| + 1
  {
    hide Below;
    BelowHas(src, |src.children|, place);
  }

  lemma {:induction false} BelowHas(src: Source, count: nat, place: Place)
    requires count <= |src.children|
    ensures place in Below(src, count) <==> place != [] && place[0] < count && SourceAt(src, place).Some?
    decreases src, count
  {
    hide PlaceList, Prefixed;
    if count > 0 {
      BelowHas(src, count - 1, place);
      var child := src.children[count - 1].source;
      PrefixedHas(count - 1, PlaceList(child), place);
      if place != [] {
        ListHas(child, place[1..]);
      }
    }
  }

  lemma {:induction false} ListDistinct(src: Source)
    ensures NoDuplicates(PlaceList(src))
    decreases src, |src.children| + 1
  {
    hide Below;
    BelowDistinct(src, |src.children|);
    var root: Place := [];
    BelowHas(src, |src.children|, root);
    DistinctJoin([root], Below(src, |src.children|));
  }

  lemma {:induction false} DistinctJoin(a: seq<Place>, b: seq<Place>)
    requires NoDuplicates(a) && NoDuplicates(b) && forall i :: 0 <= i < |a| ==> a[i] !in b
    ensures NoDuplicates(a + b)
  {
  }

  lemma {:induction false} BelowDistinct(src: Source, count: nat)
    requires count <= |src.children|
    ensures NoDuplicates(Below(src, count))
    decreases src, count
  {
    hide PlaceList, Prefixed;
    if count > 0 {
      BelowDistinct(src, count - 1);
      var list := PlaceList(src.children[count - 1].source);
      ListDistinct(src.children[count - 1].source);
      PrefixedDistinct(count - 1, list);
      var before := Below(src, count - 1);
      forall i | 0 <= i < |before|
        ensures before[i] !in Prefixed(count - 1, list)
      {
        BelowHas(src, count - 1, before[i]);
        PrefixedHas(count - 1, list, before[i]);
      }
      DistinctJoin(before, Prefixed(count - 1, list));
    }
  }

  lemma {:induction false} PrefixedDistinct(i: nat, places: seq<Place>)
    requires NoDuplicates(places)
    ensures NoDuplicates(Prefixed(i, places))
  {
    var r := Prefixed(i, places);
    forall j, k | 0 <= j < k < |r|
      ensures r[j] != r[k]
    {
      assert r[j][1..] == places[j] && r[k][1..] == places[k];
    }
  }

  // ---------- Depth ----------

  lemma {:induction false} PlacesAreShallow(src: Source, place: Place)
    requires SourceAt(src, place).Some?
    ensures |place| < Height(src)
    decreases |place|
  {
    hide Height;
    if place != [] {
      PlacesAreShallow(src.children[place[0]].source, place[1..]);
      ChildIsLower(src, place[0]);
    } else {
      HeightIs(src);
    }
  }

  lemma {:induction false} DeepestPlace(src: Source) returns (place: Place)
    ensures SourceAt(src, place).Some? && |place| == Height(src) - 1
    decreases src
  {
    hide Height;
    HeightIs(src);
    if Tallest(src, |src.children|) == 0 {
      place := [];
    } else {
      var i := TallestChild(src, |src.children|);
      var below := DeepestPlace(src.children[i].source);
      place := [i] + below;
      assert place[1..] == below;
    }
  }

  lemma {:induction false} TallestChild(src: Source, count: nat) returns (i: nat)
    requires count <= |src.children| && Tallest(src, count) > 0
    ensures i < count && Height(src.children[i].source) == Tallest(src, count)
    decreases count
  {
    hide Height;
    if Height(src.children[count - 1].source) == Tallest(src, count) {
      i := count - 1;
    } else {
      i := TallestChild(src, count - 1);
    }
  }

  // ---------- Layers ----------

  function LayersIn(src: Source, place: Place): nat {
    var sub := SourceAt(src, place);
    if sub.Some? then |sub.value.layers| else 0
  }

  function SourceWeights(src: Source): Place -> nat {
    place => LayersIn(src, place)
  }

  lemma {:induction false} SumAppend(weight: Place -> nat, a: seq<Place>, b: seq<Place>)
    ensures SumOf(weight, a + b) == SumOf(weight, a) + SumOf(weight, b)
    decreases |b|
  {
    if b == [] {
      assert a + b == a;
    } else {
      var n := |b| - 1;
      assert a + b == (a + b[..n]) + [b[n]];
      SumAppend(weight, a, b[..n]);
      SumSnoc(weight, a + b[..n], b[n]);
    }
  }

  lemma {:induction false} SumPrefixed(src: Source, i: nat, places: seq<Place>)
    requires i < |src.children|
    ensures SumOf(SourceWeights(src), Prefixed(i, places)) == SumOf(SourceWeights(src.children[i].source), places)
    decreases |places|
  {
    var r := Prefixed(i, places);
    if places != [] {
      var n := |places| - 1;
      assert r[..n] == Prefixed(i, places[..n]);
      SumPrefixed(src, i, places[..n]);
      assert r[n][1..] == places[n];
    }
  }

  lemma {:induction false} LayersAre(src: Source)
    ensures SumOf(SourceWeights(src), PlaceList(src)) == LayersOf(src)
    decreases src, |src.children| + 1
  {
    var root: Place := [];
    ListIs(src);
    LayersBelowAre(src, |src.children|);
    SumAppend(SourceWeights(src), [root], Below(src, |src.children|));
    SumOne(SourceWeights(src), root);
    hide PlaceList, Below, SumOf;
  }

  lemma {:induction false} SumOne(weight: Place -> nat, place: Place)
    ensures SumOf(weight, [place]) == weight(place)
  {
    assert [place][..0] == [];
  }

  lemma {:induction false} LayersBelowAre(src: Source, count: nat)
    requires count <= |src.children|
    ensures SumOf(SourceWeights(src), Below(src, count)) == LayersBelow(src, count)
    decreases src, count
  {
    hide PlaceList, Prefixed, LayersOf, SourceWeights;
    if count > 0 {
      var child := src.children[count - 1].source;
      LayersBelowAre(src, count - 1);
      LayersAre(child);
      SumPrefixed(src, count - 1, PlaceList(child));
      SumAppend(SourceWeights(src), Below(src, count - 1), Prefixed(count - 1, PlaceList(child)));
      hide SumOf;
    } else {
      assert Below(src, 0) == [];
    }
  }

  // ---------- Objects ----------

  /** Every object the tree names, with its bytes: requests, layer contents, child manifests, delegations. */
  function ObjectsOf(up: Crates, src: Source): map<Kappa, Bytes>
    decreases src, |src.children| + 1
  {
    OwnObjects(up, src) + ObjectsBelow(up, src, |src.children|)
  }

  function LayerObjects(up: Crates, layers: seq<SourceLayer>): map<Kappa, Bytes> {
    if layers == [] then map[]
    else
      var n := |layers| - 1;
      LayerObjects(up, layers[..n])[up.address(layers[n].content) := layers[n].content]
  }

  function OwnObjects(up: Crates, src: Source): map<Kappa, Bytes> {
    var request := CapabilityBlob(up, src.required);
    LayerObjects(up, src.layers)[request.kappa := request.content]
  }

  function ObjectsBelow(up: Crates, src: Source, count: nat): map<Kappa, Bytes>
    requires count <= |src.children|
    decreases src, count
  {
    if count == 0 then map[]
    else
      var child := src.children[count - 1];
      var delegated := CapabilityBlob(up, child.capabilities);
      var manifest := up.encodeManifest(ManifestFor(up, child.source));
      (ObjectsBelow(up, src, count - 1) + ObjectsOf(up, child.source))[up.address(manifest) := manifest][delegated.kappa := delegated.content]
  }

  /** Each object is under its own address. */
  ghost predicate OwnAddresses(up: Crates, objects: map<Kappa, Bytes>) {
    forall k :: k in objects ==> up.address(objects[k]) == k
  }

  lemma {:induction false} JoinAddresses(up: Crates, a: map<Kappa, Bytes>, b: map<Kappa, Bytes>)
    requires OwnAddresses(up, a) && OwnAddresses(up, b)
    ensures OwnAddresses(up, a + b)
  {
  }

  lemma {:induction false} PutAddress(up: Crates, a: map<Kappa, Bytes>, bytes: Bytes)
    requires OwnAddresses(up, a)
    ensures OwnAddresses(up, a[up.address(bytes) := bytes])
  {
  }

  lemma {:induction false} LayerObjectsAre(up: Crates, layers: seq<SourceLayer>, k: Kappa)
    ensures OwnAddresses(up, LayerObjects(up, layers))
    ensures k in LayerObjects(up, layers) <==> exists i :: 0 <= i < |layers| && up.address(layers[i].content) == k
    decreases |layers|
  {
    if layers == [] {
    } else {
      var n := |layers| - 1;
      LayerObjectsAre(up, layers[..n], k);
      PutAddress(up, LayerObjects(up, layers[..n]), layers[n].content);
      hide OwnAddresses;
      if k in LayerObjects(up, layers[..n]) {
        var i :| 0 <= i < n && up.address(layers[..n][i].content) == k;
        assert up.address(layers[i].content) == k;
      }
      if i :| 0 <= i < |layers| && up.address(layers[i].content) == k {
        if i < n {
          assert up.address(layers[..n][i].content) == k;
        }
      }
    }
  }

  lemma {:induction false} ObjectsAddressed(up: Crates, src: Source)
    ensures OwnAddresses(up, ObjectsOf(up, src))
    decreases src, |src.children| + 1
  {
    LayerObjectsAre(up, src.layers, []);
    hide OwnAddresses, ObjectsBelow, LayerObjects;
    PutAddress(up, LayerObjects(up, src.layers), up.encodeCapabilities(src.required));
    BelowAddressed(up, src, |src.children|);
    JoinAddresses(up, OwnObjects(up, src), ObjectsBelow(up, src, |src.children|));
  }

  lemma {:induction false} BelowAddressed(up: Crates, src: Source, count: nat)
    requires count <= |src.children|
    ensures OwnAddresses(up, ObjectsBelow(up, src, count))
    decreases src, count
  {
    if count > 0 {
      hide OwnAddresses, ObjectsOf, ManifestFor;
      var child := src.children[count - 1];
      var manifest := up.encodeManifest(ManifestFor(up, child.source));
      BelowAddressed(up, src, count - 1);
      ObjectsAddressed(up, child.source);
      var joined := ObjectsBelow(up, src, count - 1) + ObjectsOf(up, child.source);
      JoinAddresses(up, ObjectsBelow(up, src, count - 1), ObjectsOf(up, child.source));
      PutAddress(up, joined, manifest);
      PutAddress(up, joined[up.address(manifest) := manifest], up.encodeCapabilities(child.capabilities));
    }
  }

  /** Each object is one of the texts compiled from the tree. */
  lemma {:induction false} ObjectsFromTexts(up: Crates, src: Source)
    ensures ObjectsOf(up, src).Values <= Texts(up, src)
    decreases src, |src.children| + 1
  {
    hide ObjectsBelow, TextsBelow, LayerObjects, ManifestFor;
    BelowFromTexts(up, src, |src.children|);
    LayersFromTexts(up, src.layers, set i | 0 <= i < |src.layers| :: src.layers[i].content);
  }

  lemma {:induction false} BelowFromTexts(up: Crates, src: Source, count: nat)
    requires count <= |src.children|
    ensures ObjectsBelow(up, src, count).Values <= TextsBelow(up, src, count)
    decreases src, count
  {
    hide ObjectsOf, Texts, ManifestFor;
    if count > 0 {
      var child := src.children[count - 1].source;
      BelowFromTexts(up, src, count - 1);
      ObjectsFromTexts(up, child);
      TextsHave(up, child);
    }
  }

  lemma {:induction false} LayersFromTexts(up: Crates, layers: seq<SourceLayer>, texts: set<Bytes>)
    requires forall i :: 0 <= i < |layers| ==> layers[i].content in texts
    ensures LayerObjects(up, layers).Values <= texts
    decreases |layers|
  {
    if layers != [] {
      LayersFromTexts(up, layers[..|layers| - 1], texts);
    }
  }

  /** The label is named at some place of the tree. */
  ghost predicate NamedIn(up: Crates, src: Source, place: Place, k: Kappa) {
    SourceAt(src, place).Some? && k in References(ManifestFor(up, SourceAt(src, place).value))
  }

  ghost predicate NamedInTree(up: Crates, src: Source, k: Kappa) {
    exists place :: NamedIn(up, src, place, k)
  }

  /** Below `count`, the label is a child's own label or delegation, or named inside a child. */
  ghost predicate NamedBelow(up: Crates, src: Source, count: nat, k: Kappa)
    requires count <= |src.children|
  {
    exists i :: 0 <= i < count && NamedByChild(up, src, i, k)
  }

  ghost predicate NamedByChild(up: Crates, src: Source, i: nat, k: Kappa)
    requires i < |src.children|
  {
    NamedByEdge(up, src, i, k) || NamedInTree(up, src.children[i].source, k)
  }

  ghost predicate NamedByEdge(up: Crates, src: Source, i: nat, k: Kappa)
    requires i < |src.children|
  {
    k == KappaFor(up, src.children[i].source) || k == CapabilityBlob(up, src.children[i].capabilities).kappa
  }

  ghost predicate NamedByRoot(up: Crates, src: Source, k: Kappa) {
    k == CapabilityBlob(up, src.required).kappa || exists i :: 0 <= i < |src.layers| && up.address(src.layers[i].content) == k
  }

  lemma {:induction false} ObjectsAre(up: Crates, src: Source, k: Kappa)
    ensures k in ObjectsOf(up, src) <==> NamedInTree(up, src, k)
    decreases src, |src.children| + 1
  {
    hide ObjectsBelow, LayerObjects, NamedInTree;
    LayerObjectsAre(up, src.layers, k);
    BelowAre(up, src, |src.children|, k);
    NamedInTreeIs(up, src, k);
  }

  lemma {:induction false} BelowAre(up: Crates, src: Source, count: nat, k: Kappa)
    requires count <= |src.children|
    ensures k in ObjectsBelow(up, src, count) <==> NamedBelow(up, src, count, k)
    decreases src, count
  {
    hide ObjectsOf, ManifestFor, NamedInTree;
    if count > 0 {
      BelowAre(up, src, count - 1, k);
      ObjectsAre(up, src.children[count - 1].source, k);
      assert NamedBelow(up, src, count, k) <==> NamedBelow(up, src, count - 1, k) || NamedByChild(up, src, count - 1, k) by {
        hide NamedByChild;
      }
    }
  }

  /** A label is named in a tree by the root itself or below it. */
  lemma {:induction false} NamedInTreeIs(up: Crates, src: Source, k: Kappa)
    ensures NamedInTree(up, src, k) <==> NamedByRoot(up, src, k) || NamedBelow(up, src, |src.children|, k)
  {
    hide NamedByRoot, NamedByChild, NamedIn;
    if NamedInTree(up, src, k) {
      var place :| NamedIn(up, src, place, k);
      NameGoesDown(up, src, place, k);
    }
    if NamedByRoot(up, src, k) {
      RootNames(up, src, k);
      RootIsPlace(up, src, k);
    }
    if NamedBelow(up, src, |src.children|, k) {
      var i :| 0 <= i < |src.children| && NamedByChild(up, src, i, k);
      NameGoesUp(up, src, i, k);
    }
  }

  lemma {:induction false} RootIsPlace(up: Crates, src: Source, k: Kappa)
    requires k in References(ManifestFor(up, src))
    ensures NamedIn(up, src, [], k) && NamedInTree(up, src, k)
  {
    hide References, ManifestFor;
    var root: Place := [];
    assert NamedIn(up, src, root, k);
  }

  lemma {:induction false} NameGoesDown(up: Crates, src: Source, place: Place, k: Kappa)
    requires NamedIn(up, src, place, k)
    ensures NamedByRoot(up, src, k) || NamedBelow(up, src, |src.children|, k)
  {
    hide References, ManifestFor, NamedByRoot, NamedByEdge;
    RootNames(up, src, k);
    if place == [] {
      if !NamedByRoot(up, src, k) {
        var i :| 0 <= i < |src.children| && NamedByEdge(up, src, i, k);
        assert NamedByChild(up, src, i, k);
      }
    } else {
      var i := place[0];
      assert NamedIn(up, src.children[i].source, place[1..], k);
      assert NamedByChild(up, src, i, k);
    }
  }

  lemma {:induction false} NameGoesUp(up: Crates, src: Source, i: nat, k: Kappa)
    requires i < |src.children| && NamedByChild(up, src, i, k)
    ensures NamedInTree(up, src, k)
  {
    hide References, ManifestFor, NamedByRoot, NamedByEdge;
    if NamedInTree(up, src.children[i].source, k) {
      var place :| NamedIn(up, src.children[i].source, place, k);
      var below := [i] + place;
      assert below[1..] == place;
      assert NamedIn(up, src, below, k);
    } else {
      RootNames(up, src, k);
      RootIsPlace(up, src, k);
    }
  }

  lemma {:induction false} RootNames(up: Crates, src: Source, k: Kappa)
    ensures k in References(ManifestFor(up, src)) <==>
      NamedByRoot(up, src, k) || exists i :: 0 <= i < |src.children| && NamedByEdge(up, src, i, k)
  {
    hide CapabilityBlob;
    var m := ManifestFor(up, src);
    assert |m.layers| == |src.layers| && forall i :: 0 <= i < |src.layers| ==> m.layers[i].content == up.address(src.layers[i].content);
    assert |m.children| == |src.children|;
    forall i | 0 <= i < |src.children|
      ensures NamedByEdge(up, src, i, k) <==> k == m.children[i].application || k == m.children[i].capabilities
    {
      ChildNamed(up, src, i);
    }
    hide ManifestFor, NamedByEdge;
    if i :| 0 <= i < |src.layers| && up.address(src.layers[i].content) == k {
      assert m.layers[i].content == k;
    }
  }
}
