/** Moving keys to the samples loses nothing: every row of a source block has
    a row of its own in the merged block, for values and gradients alike. */
module LosslessMoves {
  import opened Wrappers
  import opened Sequences
  import opened Lexicographic
  import opened LabelSets
  import opened Sheets
  import opened Merging
  import opened MergedBlocks
  import opened BlockMerging
  import opened MergeMeaning

  function LabelsAfter(axis: Axis, key: Row, labels: seq<RowLabel>): (r: seq<RowLabel>)
    ensures |r| == |labels|
    ensures forall j :: 0 <= j < |r| ==> r[j] == MovedLabel(axis, key, labels[j])
  {
    seq(|labels|, j requires 0 <= j < |labels| => MovedLabel(axis, key, labels[j]))
  }

  /** The moved labels of all sheets, one sheet after the other. */
  function AllLabels(axis: Axis, keys: seq<Row>, sheets: seq<Sheet>): seq<RowLabel>
    requires |keys| == |sheets|
  {
    if keys == [] then []
    else
      var n := |keys| - 1;
      AllLabels(axis, keys[..n], sheets[..n]) + LabelsAfter(axis, keys[n], sheets[n].labels)
  }

  function RowCount(sheets: seq<Sheet>): nat {
    if sheets == [] then 0 else RowCount(sheets[..|sheets| - 1]) + |sheets[|sheets| - 1].labels|
  }

  lemma {:induction false} AllLabelsLength(axis: Axis, keys: seq<Row>, sheets: seq<Sheet>)
    requires |keys| == |sheets|
    ensures |AllLabels(axis, keys, sheets)| == RowCount(sheets)
  {
    if keys != [] {
      AllLabelsLength(axis, keys[..|keys| - 1], sheets[..|keys| - 1]);
    }
  }

  ghost predicate IsMoved(axis: Axis, keys: seq<Row>, sheets: seq<Sheet>, about: RowLabel)
    requires |keys| == |sheets|
  {
    exists i, j :: 0 <= i < |keys| && 0 <= j < |sheets[i].labels| && about == MovedLabel(axis, keys[i], sheets[i].labels[j])
  }

  lemma {:induction false} InAllLabels(axis: Axis, keys: seq<Row>, sheets: seq<Sheet>, about: RowLabel)
    requires |keys| == |sheets|
    ensures about in AllLabels(axis, keys, sheets) <==> IsMoved(axis, keys, sheets, about)
  {
    hide MovedLabel;
    if keys != [] {
      var n := |keys| - 1;
      InAllLabels(axis, keys[..n], sheets[..n], about);
      if IsMoved(axis, keys, sheets, about) {
        var i, j :| 0 <= i < |keys| && 0 <= j < |sheets[i].labels| && about == MovedLabel(axis, keys[i], sheets[i].labels[j]);
        if i < n {
          assert keys[..n][i] == keys[i] && sheets[..n][i] == sheets[i];
        } else {
          assert LabelsAfter(axis, keys[n], sheets[n].labels)[j] == about;
        }
      }
    }
  }

  /** A sample extended by a key says which key that was. */
  lemma KeysAreApart(key: Row, other: Row, a: RowLabel, b: RowLabel)
    requires |key| == |other| && MovedLabel(Samples, key, a) == MovedLabel(Samples, other, b)
    ensures key == other && a == b
  {
    LocateMoved(Samples, key, a, []);
    LocateMoved(Samples, other, b, []);
  }

  lemma {:induction false} AllLabelsAreDistinct(keys: seq<Row>, sheets: seq<Sheet>, m: nat)
    requires |keys| == |sheets| && Distinct(keys) && OfSize(keys, m)
    requires forall i :: 0 <= i < |sheets| ==> Distinct(sheets[i].labels)
    ensures Distinct(AllLabels(Samples, keys, sheets))
  {
    hide MovedLabel;
    if keys != [] {
      var n := |keys| - 1;
      var before, last := AllLabels(Samples, keys[..n], sheets[..n]), LabelsAfter(Samples, keys[n], sheets[n].labels);
      AllLabelsAreDistinct(keys[..n], sheets[..n], m);
      forall a, b | 0 <= a < |before| && 0 <= b < |last| ensures before[a] != last[b] {
        InAllLabels(Samples, keys[..n], sheets[..n], before[a]);
        var i, j :| 0 <= i < n && 0 <= j < |sheets[i].labels| && before[a] == MovedLabel(Samples, keys[i], sheets[i].labels[j]);
        if before[a] == last[b] {
          KeysAreApart(keys[i], keys[n], sheets[i].labels[j], sheets[n].labels[b]);
        }
      }
      forall a, b | 0 <= a < b < |last| ensures last[a] != last[b] {
        MovedLabelIsInjective(Samples, keys[n], sheets[n].labels[a], sheets[n].labels[b]);
      }
    }
  }

  lemma SourceLabelsAreDistinct(axis: Axis, names: seq<string>, kbs: seq<KeyAndBlock>, sort: bool, parameter: Option<string>, i: nat)
    requires CanMerge(axis, names, None, kbs, sort, parameter) && i < |kbs|
    ensures Distinct(SheetsOf(kbs, parameter)[i].labels)
  {
    match parameter
    case None =>
      PartsOf(kbs, |names|, i);
      SampleLabelsAreDistinct(kbs[i].block.samples.rows);
    case Some(p) =>
      GradientSheetIsDistinct(kbs, |names|, i, p);
  }

  lemma MovedRowsAreDistinct(names: seq<string>, kbs: seq<KeyAndBlock>, sort: bool, parameter: Option<string>)
    requires CanMerge(Samples, names, None, kbs, sort, parameter)
    ensures Distinct(AllLabels(Samples, KeysOf(kbs), SheetsOf(kbs, parameter)))
  {
    assert Distinct(KeysOf(kbs)) && OfSize(KeysOf(kbs), |names|);
    hide CanMerge, SheetsOf, AllLabels;
    forall i | 0 <= i < |kbs| ensures Distinct(SheetsOf(kbs, parameter)[i].labels) {
      SourceLabelsAreDistinct(Samples, names, kbs, sort, parameter, i);
    }
    AllLabelsAreDistinct(KeysOf(kbs), SheetsOf(kbs, parameter), |names|);
  }

  lemma MergedRowIsMoved(names: seq<string>, kbs: seq<KeyAndBlock>, sort: bool, parameter: Option<string>, about: RowLabel)
    requires CanMerge(Samples, names, None, kbs, sort, parameter)
    ensures about in SheetOf(Merged(Samples, names, None, kbs, sort), parameter).labels
        <==> about in AllLabels(Samples, KeysOf(kbs), SheetsOf(kbs, parameter))
  {
    assert kbs != [];
    hide CanMerge, Merged, SheetOf, SheetsOf, AllLabels, MovedLabel;
    LabelsOfMerged(Samples, names, None, kbs, sort, parameter, about);
    InAllLabels(Samples, KeysOf(kbs), SheetsOf(kbs, parameter), about);
  }

  /** The merged rows are exactly the moved rows of all sources, each once. */
  lemma EveryRowOnce(names: seq<string>, kbs: seq<KeyAndBlock>, sort: bool, parameter: Option<string>)
    returns (merged: seq<RowLabel>, moved: seq<RowLabel>)
    requires kbs != [] && CanMerge(Samples, names, None, kbs, sort, parameter)
    ensures merged == SheetOf(Merged(Samples, names, None, kbs, sort), parameter).labels
    ensures moved == AllLabels(Samples, KeysOf(kbs), SheetsOf(kbs, parameter))
    ensures SameElements(merged, moved) && Distinct(merged) && Distinct(moved)
    ensures |merged| == RowCount(SheetsOf(kbs, parameter))
  {
    hide CanMerge, Merged, SheetOf, SheetsOf, AllLabels, KeysOf, Gather, RowCount, MergedProperties;
    merged := SheetOf(Merged(Samples, names, None, kbs, sort), parameter).labels;
    moved := AllLabels(Samples, KeysOf(kbs), SheetsOf(kbs, parameter));
    MergedSheet(Samples, names, None, kbs, sort, parameter);
    MovedRowsAreDistinct(names, kbs, sort, parameter);
    AllLabelsLength(Samples, KeysOf(kbs), SheetsOf(kbs, parameter));
    forall about ensures about in merged <==> about in moved {
      MergedRowIsMoved(names, kbs, sort, parameter, about);
    }
    SameLength(merged, moved);
  }

  /** Each merged row comes from one row of one source only. */
  lemma OneSourcePerRow(names: seq<string>, kbs: seq<KeyAndBlock>, sort: bool, parameter: Option<string>, i: nat, j: nat, k: nat, l: nat)
    requires CanMerge(Samples, names, None, kbs, sort, parameter) && i < |kbs| && k < |kbs|
    requires j < |SheetsOf(kbs, parameter)[i].labels| && l < |SheetsOf(kbs, parameter)[k].labels|
    requires MovedLabel(Samples, kbs[i].key, SheetsOf(kbs, parameter)[i].labels[j])
          == MovedLabel(Samples, kbs[k].key, SheetsOf(kbs, parameter)[k].labels[l])
    ensures i == k && j == l
  {
    KeysAreApart(kbs[i].key, kbs[k].key, SheetsOf(kbs, parameter)[i].labels[j], SheetsOf(kbs, parameter)[k].labels[l]);
    assert KeysOf(kbs)[i] == KeysOf(kbs)[k];
    SourceLabelsAreDistinct(Samples, names, kbs, sort, parameter, i);
  }
}
