/** Tensor maps: one block per key, all blocks with the same structure. */
module Tensors {
  import opened Wrappers
  import opened Sequences
  import opened Lexicographic
  import opened LabelSets
  import opened Blocks

  datatype TensorMap = TensorMap(keys: Labels, blocks: seq<Block>)

  datatype GradientMetadata = GradientMetadata(sampleNames: seq<string>, componentNames: seq<seq<string>>)

  /** The gradients of a block, recursively, without their data. */
  datatype GradientMap = GradientMap(gradients: map<string, (GradientMetadata, GradientMap)>)

  function MetadataOf(b: Block): GradientMetadata {
    GradientMetadata(b.samples.names, NamesOf(b.components))
  }

  function GradientMapOf(b: Block): GradientMap {
    GradientMap(map p | p in b.gradients :: (MetadataOf(b.gradients[p]), GradientMapOf(b.gradients[p])))
  }

  predicate SameStructure(a: Block, b: Block) {
    && MetadataOf(a) == MetadataOf(b)
    && a.properties.names == b.properties.names
    && GradientMapOf(a) == GradientMapOf(b)
  }

  lemma SameStructureOfGradients(a: Block, b: Block, p: string)
    requires GradientMapOf(a) == GradientMapOf(b)
    ensures a.gradients.Keys == b.gradients.Keys
    ensures p in a.gradients ==>
      MetadataOf(a.gradients[p]) == MetadataOf(b.gradients[p]) && GradientMapOf(a.gradients[p]) == GradientMapOf(b.gradients[p])
  {
    var ga, gb := GradientMapOf(a).gradients, GradientMapOf(b).gradients;
    assert a.gradients.Keys == ga.Keys && b.gradients.Keys == gb.Keys;
    if p in a.gradients {
      assert ga[p] == gb[p];
    }
  }

  lemma GradientMapEntry(b: Block, p: string)
    ensures GradientMapOf(b).gradients.Keys == b.gradients.Keys
    ensures p in b.gradients ==> GradientMapOf(b).gradients[p] == (MetadataOf(b.gradients[p]), GradientMapOf(b.gradients[p]))
  {}

  lemma SameGradientMaps(a: Block, b: Block)
    requires a.gradients.Keys == b.gradients.Keys
    requires forall p :: p in a.gradients ==>
      && p in b.gradients
      && MetadataOf(a.gradients[p]) == MetadataOf(b.gradients[p]) && GradientMapOf(a.gradients[p]) == GradientMapOf(b.gradients[p])
    ensures GradientMapOf(a) == GradientMapOf(b)
  {
    hide MetadataOf, GradientMapOf;
    GradientMapEntry(a, "");
    GradientMapEntry(b, "");
    forall p | p in a.gradients ensures GradientMapOf(a).gradients[p] == GradientMapOf(b).gradients[p] {
      GradientMapEntry(a, p);
      GradientMapEntry(b, p);
    }
    assert GradientMapOf(a).gradients == GradientMapOf(b).gradients;
  }

  /** The nested gradient at the end of a path of parameters. */
  ghost function GradientAt(b: Block, path: seq<string>): Option<Block>
    decreases path
  {
    if path == [] then Some(b)
    else if path[0] in b.gradients then GradientAt(b.gradients[path[0]], path[1..])
    else None
  }

  /** Both are missing, or both are there with the same sample names, as many
      components, and the same names for each component. */
  ghost predicate SameNames(a: Option<Block>, b: Option<Block>) {
    match (a, b)
    case (Some(x), Some(y)) =>
      && x.samples.names == y.samples.names && |x.components| == |y.components|
      && forall k :: 0 <= k < |x.components| ==> x.components[k].names == y.components[k].names
    case (None, None) => true
    case _ => false
  }

  lemma SameMetadataExactly(a: Block, b: Block)
    ensures MetadataOf(a) == MetadataOf(b) <==> SameNames(Some(a), Some(b))
  {
    var x, y := NamesOf(a.components), NamesOf(b.components);
    assert x == y <==> |x| == |y| && forall k :: 0 <= k < |x| ==> x[k] == y[k];
    assert |x| == |a.components| && |y| == |b.components|;
    assert forall k :: 0 <= k < |x| ==> x[k] == a.components[k].names;
    assert forall k :: 0 <= k < |y| ==> y[k] == b.components[k].names;
  }

  lemma {:induction false} NamesAtPath(a: Block, b: Block, path: seq<string>)
    requires MetadataOf(a) == MetadataOf(b) && GradientMapOf(a) == GradientMapOf(b)
    ensures SameNames(GradientAt(a, path), GradientAt(b, path))
    decreases path
  {
    if path == [] {
      SameMetadataExactly(a, b);
    } else {
      SameStructureOfGradients(a, b, path[0]);
      if path[0] in a.gradients {
        NamesAtPath(a.gradients[path[0]], b.gradients[path[0]], path[1..]);
      }
    }
  }

  ghost predicate SamePaths(a: Block, b: Block) {
    forall path: seq<string> :: SameNames(GradientAt(a, path), GradientAt(b, path))
  }

  lemma {:induction false} SameByPaths(a: Block, b: Block)
    requires SamePaths(a, b)
    ensures MetadataOf(a) == MetadataOf(b) && GradientMapOf(a) == GradientMapOf(b)
    decreases a
  {
    assert SameNames(GradientAt(a, []), GradientAt(b, []));
    SameMetadataExactly(a, b);
    hide SameNames, GradientMapOf, MetadataOf;
    forall p ensures p in a.gradients <==> p in b.gradients {
      StartOfPath(a, b, p);
    }
    assert a.gradients.Keys == b.gradients.Keys;
    forall p | p in a.gradients
      ensures MetadataOf(a.gradients[p]) == MetadataOf(b.gradients[p]) && GradientMapOf(a.gradients[p]) == GradientMapOf(b.gradients[p])
    {
      forall path: seq<string> ensures SameNames(GradientAt(a.gradients[p], path), GradientAt(b.gradients[p], path)) {
        BehindParameter(a, p, path);
        BehindParameter(b, p, path);
        assert SameNames(GradientAt(a, [p] + path), GradientAt(b, [p] + path));
      }
      SameByPaths(a.gradients[p], b.gradients[p]);
    }
    SameGradientMaps(a, b);
  }

  lemma BehindParameter(b: Block, p: string, path: seq<string>)
    requires p in b.gradients
    ensures GradientAt(b, [p] + path) == GradientAt(b.gradients[p], path)
  {
    assert ([p] + path)[1..] == path;
  }

  lemma StartOfPath(a: Block, b: Block, p: string)
    requires SameNames(GradientAt(a, [p]), GradientAt(b, [p]))
    ensures p in a.gradients <==> p in b.gradients
  {
    assert [p][1..] == [];
    assert p in a.gradients ==> GradientAt(a, [p]) == GradientAt(a.gradients[p], []);
    assert p in b.gradients ==> GradientAt(b, [p]) == GradientAt(b.gradients[p], []);
  }

  /** Two blocks have the same structure exactly if their property names agree, and
      at the end of every path of parameters there is a gradient with the same
      names in both, or in none. */
  lemma SameStructureExactly(a: Block, b: Block)
    ensures SameStructure(a, b) <==> a.properties.names == b.properties.names && SamePaths(a, b)
  {
    hide SameNames, GradientAt, MetadataOf, GradientMapOf;
    if SameStructure(a, b) {
      forall path: seq<string> ensures SameNames(GradientAt(a, path), GradientAt(b, path)) {
        NamesAtPath(a, b, path);
      }
    }
    if SamePaths(a, b) {
      SameByPaths(a, b);
    }
  }

  ghost predicate ValidTensor(t: TensorMap) {
    && ValidLabels(t.keys)
    && |t.blocks| == |t.keys.rows|
    && (forall i :: 0 <= i < |t.blocks| ==> ValidBlock(t.blocks[i]))
    && (forall i :: 0 <= i < |t.blocks| ==> SameStructure(t.blocks[0], t.blocks[i]))
  }

  /** Collect the gradients of a block, one parameter at a time. */
  method NewGradientMap(b: Block) returns (m: GradientMap)
    ensures m == GradientMapOf(b)
    decreases b
  {
    var gradients := map[];
    var todo := b.gradients.Keys;
    while todo != {}
      invariant todo <= b.gradients.Keys
      invariant gradients == map p | p in b.gradients && p !in todo :: (MetadataOf(b.gradients[p]), GradientMapOf(b.gradients[p]))
      decreases todo
    {
      var p :| p in todo;
      var sub := NewGradientMap(b.gradients[p]);
      gradients := gradients[p := (MetadataOf(b.gradients[p]), sub)];
      todo := todo - {p};
    }
    m := GradientMap(gradients);
  }

  /** Compare the label names of a block with those of the first block. */
  method CheckLabelsNames(b: Block, sampleNames: seq<string>, componentNames: seq<seq<string>>) returns (r: Result<()>)
    ensures r.Ok? <==> MetadataOf(b) == GradientMetadata(sampleNames, componentNames)
    ensures r.Err? ==> r.error == InvalidParameter
  {
    if b.samples.names != sampleNames {
      return Err(InvalidParameter);
    }
    if |b.components| != |componentNames| {
      assert |NamesOf(b.components)| != |componentNames|;
      return Err(InvalidParameter);
    }
    for i := 0 to |b.components|
      invariant forall k :: 0 <= k < i ==> b.components[k].names == componentNames[k]
    {
      if b.components[i].names != componentNames[i] {
        assert NamesOf(b.components)[i] != componentNames[i];
        return Err(InvalidParameter);
      }
    }
    assert NamesOf(b.components) == componentNames;
    return Ok(());
  }

  /** Build a tensor map after checking that its blocks fit together. */
  method NewTensorMap(keys: Labels, blocks: seq<Block>) returns (r: Result<TensorMap>)
    ensures r.Ok? <==> |blocks| == |keys.rows| && forall i :: 0 <= i < |blocks| ==> SameStructure(blocks[0], blocks[i])
    ensures r.Ok? ==> r.value == TensorMap(keys, blocks)
    ensures r.Err? ==> r.error == InvalidParameter
  {
    if |blocks| != |keys.rows| {
      return Err(InvalidParameter);
    }
    if blocks != [] {
      var first := MetadataOf(blocks[0]);
      var gradientMap := NewGradientMap(blocks[0]);
      for i := 0 to |blocks|
        invariant forall k :: 0 <= k < i ==> SameStructure(blocks[0], blocks[k])
      {
        var names := CheckLabelsNames(blocks[i], first.sampleNames, first.componentNames);
        if names.Err? {
          return Err(names.error);
        }
        if blocks[i].properties.names != blocks[0].properties.names {
          return Err(InvalidParameter);
        }
        var gradients := NewGradientMap(blocks[i]);
        if gradients != gradientMap {
          return Err(InvalidParameter);
        }
      }
    }
    return Ok(TensorMap(keys, blocks));
  }

  /** The positions where each of `wanted` stands in `names`. */
  ghost predicate ArePositions(names: seq<string>, wanted: seq<string>, positions: seq<nat>) {
    && |positions| == |wanted|
    && forall k :: 0 <= k < |wanted| ==> positions[k] < |names| && names[positions[k]] == wanted[k]
  }

  /** The columns of a row at the given positions. */
  function Project(row: Row, positions: seq<nat>): (r: Row)
    ensures |r| == |positions|
    ensures forall k :: 0 <= k < |positions| && positions[k] < |row| ==> r[k] == row[positions[k]]
  {
    Pick(row, positions, 0)
  }

  /** The indices of the rows that project to `entry`, in ascending order. */
  function Matching(rows: seq<Row>, positions: seq<nat>, entry: Row): (r: seq<nat>)
    ensures forall i :: i in r <==> 0 <= i < |rows| && Project(rows[i], positions) == entry
    ensures forall i, j :: 0 <= i < j < |r| ==> r[i] < r[j]
  {
    if rows == [] then []
    else
      var n := |rows| - 1;
      var r := Matching(rows[..n], positions, entry);
      assert forall k :: 0 <= k < |r| ==> r[k] in r;
      if Project(rows[n], positions) == entry then r + [n] else r
  }

  /** The first position of each wanted name. */
  method FindDimensions(names: seq<string>, wanted: seq<string>) returns (r: Result<seq<nat>>)
    ensures r.Ok? <==> forall k :: 0 <= k < |wanted| ==> wanted[k] in names
    ensures r.Ok? ==> ArePositions(names, wanted, r.value)
    ensures r.Err? ==> r.error == InvalidParameter
  {
    var dimensions: seq<nat> := [];
    for k := 0 to |wanted|
      invariant ArePositions(names, wanted[..k], dimensions)
      invariant forall i :: 0 <= i < k ==> wanted[i] in names
    {
      var i := 0;
      while i < |names| && names[i] != wanted[k]
        invariant 0 <= i <= |names|
        invariant wanted[k] !in names[..i]
      {
        i := i + 1;
      }
      if i == |names| {
        assert names[..i] == names;
        return Err(InvalidParameter);
      }
      dimensions := dimensions + [i];
    }
    assert wanted[..|wanted|] == wanted;
    return Ok(dimensions);
  }

  /** Does the row have these values in these columns? */
  method IsSelected(row: Row, dimensions: seq<nat>, entry: Row) returns (selected: bool)
    requires |entry| == |dimensions| && forall k :: 0 <= k < |dimensions| ==> dimensions[k] < |row|
    ensures selected <==> Project(row, dimensions) == entry
  {
    selected := true;
    for k := 0 to |dimensions|
      invariant forall i :: 0 <= i < k ==> row[dimensions[i]] == entry[i]
    {
      if row[dimensions[k]] != entry[k] {
        assert Project(row, dimensions)[k] != entry[k];
        return false;
      }
    }
    assert Project(row, dimensions) == entry;
  }

  /** The blocks whose keys agree with the single entry of `selection`. */
  method BlocksMatching(t: TensorMap, selection: Labels) returns (r: Result<seq<nat>>)
    requires ValidLabels(t.keys) && |t.blocks| == |t.keys.rows|
    requires ValidLabels(selection)
    ensures selection.names == [] ==>
      r.Ok? && |r.value| == |t.blocks| && forall i :: 0 <= i < |t.blocks| ==> r.value[i] == i
    ensures selection.names != [] ==>
      (r.Ok? <==> |selection.rows| == 1 && forall i :: 0 <= i < |selection.names| ==> selection.names[i] in t.keys.names)
    ensures selection.names != [] && r.Ok? ==>
      exists positions :: ArePositions(t.keys.names, selection.names, positions)
                       && r.value == Matching(t.keys.rows, positions, selection.rows[0])
    ensures r.Err? ==> r.error == InvalidParameter
  {
    hide Matching, Project;
    if |selection.names| == 0 {
      return Ok(seq(|t.blocks|, i => i));
    }
    if |selection.rows| != 1 {
      return Err(InvalidParameter);
    }
    var dimensions :- FindDimensions(t.keys.names, selection.names);
    var matching := MatchingRows(t.keys.rows, dimensions, selection.rows[0]);
    return Ok(matching);
  }

  method MatchingRows(rows: seq<Row>, dimensions: seq<nat>, entry: Row) returns (matching: seq<nat>)
    requires |entry| == |dimensions|
    requires forall b, k :: 0 <= b < |rows| && 0 <= k < |dimensions| ==> dimensions[k] < |rows[b]|
    ensures matching == Matching(rows, dimensions, entry)
  {
    matching := [];
    for b := 0 to |rows|
      invariant matching == Matching(rows[..b], dimensions, entry)
    {
      var selected := IsSelected(rows[b], dimensions, entry);
      if selected {
        matching := matching + [b];
      }
      assert rows[..b + 1][..b] == rows[..b];
    }
    assert rows[..|rows|] == rows;
  }
}
