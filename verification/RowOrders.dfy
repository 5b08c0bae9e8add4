/** In which order the rows of merged blocks are, with sorting and without. */
module RowOrders {
  import opened Wrappers
  import opened Sequences
  import opened Lexicographic
  import opened Blocks
  import opened Tensors
  import opened Sheets
  import opened Merging
  import opened MergedBlocks
  import opened Groups
  import opened KeyMoves

  /** Row `r` of block `b` is this one, once the key has moved. */
  predicate Occurs(axis: Axis, kbs: seq<KeyAndBlock>, b: nat, r: nat, row: Row) {
    && b < |kbs| && r < |kbs[b].block.samples.rows|
    && row == kbs[b].block.samples.rows[r] + (if axis.Samples? then kbs[b].key else [])
  }

  /** The row occurs somewhere before row `r` of block `b`. */
  ghost predicate OccursBefore(axis: Axis, kbs: seq<KeyAndBlock>, b: nat, r: nat, row: Row) {
    exists a: nat, s: nat :: Occurs(axis, kbs, a, s, row) && (a < b || (a == b && s < r))
  }

  lemma {:induction false} PlaceOfRow(axis: Axis, kbs: seq<KeyAndBlock>, b: nat, r: nat)
    requires b < |kbs| && r < |SampleRows(axis, kbs[b])|
    ensures |AllSampleRows(axis, kbs[..b])| + r < |AllSampleRows(axis, kbs)|
    ensures AllSampleRows(axis, kbs)[|AllSampleRows(axis, kbs[..b])| + r] == SampleRows(axis, kbs[b])[r]
  {
    var n := |kbs| - 1;
    if b < n {
      PlaceOfRow(axis, kbs[..n], b, r);
      assert kbs[..n][..b] == kbs[..b];
    }
  }

  lemma {:induction false} RowAtPlace(axis: Axis, kbs: seq<KeyAndBlock>, p: nat) returns (b: nat, r: nat)
    requires p < |AllSampleRows(axis, kbs)|
    ensures b < |kbs| && r < |SampleRows(axis, kbs[b])| && p == |AllSampleRows(axis, kbs[..b])| + r
    ensures AllSampleRows(axis, kbs)[p] == SampleRows(axis, kbs[b])[r]
  {
    var n := |kbs| - 1;
    var before := |AllSampleRows(axis, kbs[..n])|;
    if p < before {
      b, r := RowAtPlace(axis, kbs[..n], p);
      assert kbs[..n][..b] == kbs[..b];
    } else {
      b, r := n, p - before;
    }
  }

  lemma {:induction false} StartsGrow(axis: Axis, kbs: seq<KeyAndBlock>, a: nat, b: nat)
    requires a < b <= |kbs|
    ensures |AllSampleRows(axis, kbs[..a])| + |SampleRows(axis, kbs[a])| <= |AllSampleRows(axis, kbs[..b])|
  {
    assert kbs[..b][..b - 1] == kbs[..b - 1];
    if a < b - 1 {
      StartsGrow(axis, kbs, a, b - 1);
    }
  }

  /** Without sorting, rows are in the order in which they occur first, block by
      block: before every occurrence of a later row there is an earlier one. */
  lemma UnsortedInOrder(axis: Axis, kbs: seq<KeyAndBlock>, i: nat, j: nat, b: nat, r: nat)
    requires i < j < |MergedSampleRows(axis, kbs, false)|
    requires Occurs(axis, kbs, b, r, MergedSampleRows(axis, kbs, false)[j])
    ensures OccursBefore(axis, kbs, b, r, MergedSampleRows(axis, kbs, false)[i])
  {
    hide AllSampleRows, FirstOccurrences;
    var all := AllSampleRows(axis, kbs);
    FirstPlacesAscend(all, i, j);
    PlaceOfRow(axis, kbs, b, r);
    NotBeforeFirst(all, FirstOccurrences(all)[j], |AllSampleRows(axis, kbs[..b])| + r);
    EarlierPlace(axis, kbs, Position(all, FirstOccurrences(all)[i]).value, b, r);
  }

  lemma EarlierPlace(axis: Axis, kbs: seq<KeyAndBlock>, p: nat, b: nat, r: nat)
    requires b < |kbs| && r < |SampleRows(axis, kbs[b])|
    requires p < |AllSampleRows(axis, kbs)| && p < |AllSampleRows(axis, kbs[..b])| + r
    ensures OccursBefore(axis, kbs, b, r, AllSampleRows(axis, kbs)[p])
  {
    hide AllSampleRows;
    var a, s := RowAtPlace(axis, kbs, p);
    if b < a {
      StartsGrow(axis, kbs, b, a);
    }
    assert Occurs(axis, kbs, a, s, AllSampleRows(axis, kbs)[p]);
  }

  lemma NotBeforeFirst(all: seq<Row>, row: Row, p: nat)
    requires p < |all| && all[p] == row
    ensures Position(all, row).value <= p
  {
    var first := Position(all, row).value;
    assert forall k :: 0 <= k < first ==> all[k] in all[..first];
  }

  /** Samples are in ascending order if they are sorted, and the samples of
      gradients always are. */
  ghost predicate RowsAscend(b: Block, sort: bool) {
    && (sort ==> Ascending(b.samples.rows))
    && forall p :: p in b.gradients ==> Ascending(b.gradients[p].samples.rows)
  }

  lemma MergedRowsAscend(axis: Axis, names: seq<string>, newKeys: Option<seq<Row>>, kbs: seq<KeyAndBlock>, sort: bool)
    requires Mergeable(kbs, |names|)
    ensures RowsAscend(Merged(axis, names, newKeys, kbs, sort), sort)
  {
    assert kbs != [];
    hide MergedSampleRows, MergedGradientRows, MergedProperties, Gather, Mergeable;
    var r := Merged(axis, names, newKeys, kbs, sort);
    if sort {
      SortedSamplesAscend(axis, kbs, |names|);
    }
    forall p | p in r.gradients ensures Ascending(r.gradients[p].samples.rows) {
      GradientSamplesAscend(axis, r.samples.rows, kbs, |names|, p);
    }
  }

  /** The rows of every block after a move. */
  lemma MovedRowsAscend(axis: Axis, t: TensorMap, dimensions: seq<string>, newKeys: Option<seq<Row>>, sort: bool)
    requires ValidTensor(t) && t.keys.rows != []
    ensures forall b :: b in Moved(axis, t, dimensions, newKeys, sort).blocks ==> RowsAscend(b, sort)
  {
    assert |t.blocks| == |t.keys.rows|;
    hide RowsAscend, Merged, Moved, ValidTensor;
    MovedCount(axis, t, dimensions, newKeys, sort);
    forall g | 0 <= g < GroupCount(t, dimensions) ensures RowsAscend(Moved(axis, t, dimensions, newKeys, sort).blocks[g], sort) {
      MovedBlock(axis, t, dimensions, newKeys, sort, g);
      MergedRowsAscend(axis, dimensions, newKeys, Group(t, dimensions, g), sort);
    }
  }
}
