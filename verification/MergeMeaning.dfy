/** What merging does to the meaning of the data: cells of the source blocks
    keep their values under the moved labels, and all other cells are zero. */
module MergeMeaning {
  import opened Wrappers
  import opened Sequences
  import opened Lexicographic
  import opened RowMajor
  import opened Arrays
  import opened LabelSets
  import opened Blocks
  import opened Tensors
  import opened Sheets
  import opened Merging
  import opened PropertyRanges
  import opened MergedBlocks
  import opened BlockMerging

  /** The values of a block, or its gradient with respect to a parameter. */
  function SheetOf(b: Block, parameter: Option<string>): Sheet {
    match parameter
    case None => ValuesSheet(b)
    case Some(p) => if p in b.gradients then GradientSheet(b, p) else NO_SHEET
  }

  function SheetsOf(kbs: seq<KeyAndBlock>, parameter: Option<string>): (r: seq<Sheet>)
    ensures |r| == |kbs|
  {
    match parameter
    case None => ValuesSheets(kbs)
    case Some(p) => GradientSheets(kbs, p)
  }

  function ComponentsOf(b: Block, parameter: Option<string>): seq<Labels> {
    match parameter
    case None => b.components
    case Some(p) => if p in b.gradients then b.gradients[p].components else []
  }

  /** Blocks that can be merged, and one kind of data that they have. */
  ghost predicate CanMerge(axis: Axis, names: seq<string>, newKeys: Option<seq<Row>>, kbs: seq<KeyAndBlock>, sort: bool, parameter: Option<string>) {
    && MergeInput(axis, names, newKeys, kbs) && !MergeFails(axis, newKeys, kbs) && MergeDemands(axis, names, newKeys, kbs, sort)
    && (parameter.Some? ==> parameter.value in kbs[0].block.gradients)
  }

  predicate HasData(b: Block, parameter: Option<string>) {
    parameter.Some? ==> parameter.value in b.gradients
  }

  lemma SheetsAre(kbs: seq<KeyAndBlock>, parameter: Option<string>, i: nat)
    requires i < |kbs|
    ensures SheetsOf(kbs, parameter)[i] == SheetOf(kbs[i].block, parameter)
  {}

  lemma SourceHasData(axis: Axis, names: seq<string>, newKeys: Option<seq<Row>>, kbs: seq<KeyAndBlock>, sort: bool, parameter: Option<string>, i: nat)
    requires CanMerge(axis, names, newKeys, kbs, sort, parameter) && i < |kbs|
    ensures HasData(kbs[i].block, parameter)
    ensures SheetsOf(kbs, parameter)[i] == SheetOf(kbs[i].block, parameter)
  {
    if parameter.Some? {
      GradientIsPresent(kbs, |names|, i, parameter.value);
    }
  }

  /** The merged sheet and what it is gathered from. */
  lemma MergedSheet(axis: Axis, names: seq<string>, newKeys: Option<seq<Row>>, kbs: seq<KeyAndBlock>, sort: bool, parameter: Option<string>)
    requires CanMerge(axis, names, newKeys, kbs, sort, parameter)
    ensures HasData(Merged(axis, names, newKeys, kbs, sort), parameter)
    ensures var sheet := SheetOf(Merged(axis, names, newKeys, kbs, sort), parameter);
      && sheet.values == Gather(axis, |names|, KeysOf(kbs), SheetsOf(kbs, parameter), sheet.labels,
                                Counts(ComponentsOf(kbs[0].block, parameter)), sheet.properties)
      && Distinct(sheet.labels) && Distinct(sheet.properties)
      && sheet.properties == MergedProperties(axis, names, newKeys, kbs).rows
  {
    hide ValidBlock, MergeFails, MergeDemands, MergedSampleRows, MergedGradientRows, MergedProperties, Gather;
    MergedSampleRowsAreDistinct(axis, kbs, sort);
    MergedPropertiesAreValid(axis, names, newKeys, kbs, sort);
    if parameter.Some? {
      MergedGradientLabelsAreDistinct(axis, kbs, sort, |names|, parameter.value);
    }
  }

  /** Each cell of a merged block is the merged cell of its labels. */
  lemma CellOfMerged(axis: Axis, names: seq<string>, newKeys: Option<seq<Row>>, kbs: seq<KeyAndBlock>, sort: bool, parameter: Option<string>,
                     about: RowLabel, c: Index, property: Row)
    requires CanMerge(axis, names, newKeys, kbs, sort, parameter)
    requires InRange(Counts(ComponentsOf(kbs[0].block, parameter)), c)
    ensures var sheet := SheetOf(Merged(axis, names, newKeys, kbs, sort), parameter);
      SheetCell(sheet, about, c, property)
      == if about in sheet.labels && property in sheet.properties
         then Some(MergedCell(axis, |names|, KeysOf(kbs), SheetsOf(kbs, parameter), about, c, property))
         else None
  {
    MergedSheet(axis, names, newKeys, kbs, sort, parameter);
    hide CanMerge, Merged, SheetOf, MergedCell, SheetCell, ComponentsOf, Gather;
    GatheredSheetCell(axis, |names|, KeysOf(kbs), SheetsOf(kbs, parameter), SheetOf(Merged(axis, names, newKeys, kbs, sort), parameter),
                      Counts(ComponentsOf(kbs[0].block, parameter)), about, c, property);
  }

  lemma GatheredSheetCell(axis: Axis, m: nat, keys: seq<Row>, sheets: seq<Sheet>, sheet: Sheet, middle: seq<nat>,
                          about: RowLabel, c: Index, property: Row)
    requires sheet.values == Gather(axis, m, keys, sheets, sheet.labels, middle, sheet.properties)
    requires InRange(middle, c)
    ensures SheetCell(sheet, about, c, property)
      == if about in sheet.labels && property in sheet.properties
         then Some(MergedCell(axis, m, keys, sheets, about, c, property))
         else None
  {
    hide MergedCell;
    if about in sheet.labels && property in sheet.properties {
      var r, q := Position(sheet.labels, about).value, Position(sheet.properties, property).value;
      InGather(|sheet.labels|, middle, |sheet.properties|, r, c, q);
    }
  }

  lemma InGather(n: nat, middle: seq<nat>, p: nat, r: nat, c: Index, q: nat)
    requires r < n && InRange(middle, c) && q < p
    ensures InRange([n] + middle + [p], Cell(r, c, q))
    ensures Cell(r, c, q)[0] == r && Middle(Cell(r, c, q)) == c && Last(Cell(r, c, q)) == q
  {
    PartsOfCell(r, c, q);
  }

  /** The rows of a merged block are about exactly what the rows of its sources
      are about, once the key has moved. */
  lemma LabelsOfMerged(axis: Axis, names: seq<string>, newKeys: Option<seq<Row>>, kbs: seq<KeyAndBlock>, sort: bool, parameter: Option<string>, about: RowLabel)
    requires CanMerge(axis, names, newKeys, kbs, sort, parameter)
    ensures about in SheetOf(Merged(axis, names, newKeys, kbs, sort), parameter).labels <==> ComesFrom(axis, kbs, SheetsOf(kbs, parameter), about)
  {
    assert kbs != [];
    hide MergeInput, MergeFails, MergeDemands, Merged, SheetOf, MovedLabel;
    if ComesFrom(axis, kbs, SheetsOf(kbs, parameter), about) {
      var i, j :| 0 <= i < |kbs| && 0 <= j < |SheetsOf(kbs, parameter)[i].labels| && about == MovedLabel(axis, kbs[i].key, SheetsOf(kbs, parameter)[i].labels[j]);
      SheetsAre(kbs, parameter, i);
      SourceLabelIsMerged(axis, names, newKeys, kbs, sort, parameter, i, j);
    }
    if about in SheetOf(Merged(axis, names, newKeys, kbs, sort), parameter).labels {
      MergedLabelHasSource(axis, names, newKeys, kbs, sort, parameter, about);
    }
  }

  ghost predicate ComesFrom(axis: Axis, kbs: seq<KeyAndBlock>, sheets: seq<Sheet>, about: RowLabel)
    requires |sheets| == |kbs|
  {
    exists i, j :: 0 <= i < |kbs| && 0 <= j < |sheets[i].labels| && about == MovedLabel(axis, kbs[i].key, sheets[i].labels[j])
  }

  lemma SourceLabelIsMerged(axis: Axis, names: seq<string>, newKeys: Option<seq<Row>>, kbs: seq<KeyAndBlock>, sort: bool, parameter: Option<string>, i: nat, j: nat)
    requires CanMerge(axis, names, newKeys, kbs, sort, parameter)
    requires i < |kbs| && j < |SheetOf(kbs[i].block, parameter).labels|
    ensures MovedLabel(axis, kbs[i].key, SheetOf(kbs[i].block, parameter).labels[j]) in SheetOf(Merged(axis, names, newKeys, kbs, sort), parameter).labels
  {
    hide ValidBlock, MergeFails, MergeDemands, MergedSampleRows, MergedGradientRows, MergedProperties, Gather, MovedLabel, MappingFor;
    var merged := MergedSampleRows(axis, kbs, sort);
    match parameter
    case None =>
      SampleKeepsLabel(axis, kbs, sort, |names|, i, j);
      var out := MappingFor(axis, merged, kbs[i])[j].output;
      assert SampleLabels(merged)[out] == RowLabel(merged[out], []);
    case Some(p) =>
      GradientIsPresent(kbs, |names|, i, p);
      var source := kbs[i].block.gradients[p].samples.rows;
      var rows := MergedGradientRows(axis, merged, kbs, p);
      GradientRowsAreMerged(axis, merged, kbs, p, i);
      assert GradientRows(kbs[i], p)[j] == source[j];
      assert RepointRows(MappingFor(axis, merged, kbs[i]), GradientRows(kbs[i], p))[j] in rows;
      var k :| 0 <= k < |rows| && rows[k] == Repoint(MappingFor(axis, merged, kbs[i]), source[j]);
      RepointKeepsLabel(axis, kbs, sort, |names|, i, source[j]);
      assert GradientLabels(merged, rows)[k] == GradientLabel(merged, rows[k]);
  }

  lemma MergedLabelHasSource(axis: Axis, names: seq<string>, newKeys: Option<seq<Row>>, kbs: seq<KeyAndBlock>, sort: bool, parameter: Option<string>, about: RowLabel)
    requires CanMerge(axis, names, newKeys, kbs, sort, parameter)
    requires about in SheetOf(Merged(axis, names, newKeys, kbs, sort), parameter).labels
    ensures ComesFrom(axis, kbs, SheetsOf(kbs, parameter), about)
  {
    match parameter
    case None => MergedSampleHasSource(axis, kbs, sort, |names|, about);
    case Some(p) => MergedGradientRowHasSource(axis, kbs, sort, |names|, p, about);
  }

  lemma MergedSampleHasSource(axis: Axis, kbs: seq<KeyAndBlock>, sort: bool, m: nat, about: RowLabel)
    requires Mergeable(kbs, m) && about in SampleLabels(MergedSampleRows(axis, kbs, sort))
    ensures ComesFrom(axis, kbs, ValuesSheets(kbs), about)
  {
    hide ValidBlock, SameStructure, MergedSampleRows;
    var merged := MergedSampleRows(axis, kbs, sort);
    var k :| 0 <= k < |merged| && about == RowLabel(merged[k], []);
    MergedSampleRowsAreDistinct(axis, kbs, sort);
    InAllSampleRows(axis, kbs, merged[k]);
    var i :| 0 <= i < |kbs| && merged[k] in SampleRows(axis, kbs[i]);
    var j :| 0 <= j < |SampleRows(axis, kbs[i])| && SampleRows(axis, kbs[i])[j] == merged[k];
    var samples := kbs[i].block.samples.rows;
    assert samples[j] + [] == samples[j];
    assert ValuesSheets(kbs)[i].labels[j] == RowLabel(samples[j], []);
    assert about == MovedLabel(axis, kbs[i].key, ValuesSheets(kbs)[i].labels[j]);
  }

  lemma MergedGradientRowHasSource(axis: Axis, kbs: seq<KeyAndBlock>, sort: bool, m: nat, p: string, about: RowLabel)
    requires Mergeable(kbs, m) && p in kbs[0].block.gradients
    requires var merged := MergedSampleRows(axis, kbs, sort);
      about in GradientLabels(merged, MergedGradientRows(axis, merged, kbs, p))
    ensures ComesFrom(axis, kbs, GradientSheets(kbs, p), about)
  {
    hide ValidBlock, SameStructure, MergedSampleRows, MergedGradientRows, MappingFor, MovedLabel;
    var merged := MergedSampleRows(axis, kbs, sort);
    var rows := MergedGradientRows(axis, merged, kbs, p);
    var k :| 0 <= k < |rows| && about == GradientLabel(merged, rows[k]);
    MergedGradientRowIsRepointed(axis, merged, kbs, p, k);
    var i, j :| 0 <= i < |kbs| && 0 <= j < |GradientRows(kbs[i], p)| && rows[k] == Repoint(MappingFor(axis, merged, kbs[i]), GradientRows(kbs[i], p)[j]);
    GradientIsPresent(kbs, m, i, p);
    var source := kbs[i].block.gradients[p].samples.rows;
    RepointKeepsLabel(axis, kbs, sort, m, i, source[j]);
    assert GradientSheets(kbs, p)[i] == GradientSheet(kbs[i].block, p);
    assert about == MovedLabel(axis, kbs[i].key, GradientSheets(kbs, p)[i].labels[j]);
  }

  lemma MergedGradientRowIsRepointed(axis: Axis, merged: seq<Row>, kbs: seq<KeyAndBlock>, p: string, k: nat)
    requires k < |MergedGradientRows(axis, merged, kbs, p)|
    ensures exists i, j ::
      && 0 <= i < |kbs| && 0 <= j < |GradientRows(kbs[i], p)|
      && MergedGradientRows(axis, merged, kbs, p)[k] == Repoint(MappingFor(axis, merged, kbs[i]), GradientRows(kbs[i], p)[j])
  {
    var row := MergedGradientRows(axis, merged, kbs, p)[k];
    OrderedSetIsSorted(AllGradientRows(axis, merged, kbs, p));
    assert row in MergedGradientRows(axis, merged, kbs, p);
    InAllGradientRows(axis, merged, kbs, p, row);
    var i :| 0 <= i < |kbs| && row in RepointRows(MappingFor(axis, merged, kbs[i]), GradientRows(kbs[i], p));
    var j :| 0 <= j < |GradientRows(kbs[i], p)| && row == Repoint(MappingFor(axis, merged, kbs[i]), GradientRows(kbs[i], p)[j]);
  }

  /** A moved property is in the merged block if its key has a range there. */
  lemma PropertiesOfMerged(axis: Axis, names: seq<string>, newKeys: Option<seq<Row>>, kbs: seq<KeyAndBlock>, i: nat, property: Row)
    requires MergeInput(axis, names, newKeys, kbs) && !MergeFails(axis, newKeys, kbs) && i < |kbs|
    requires property in kbs[i].block.properties.rows
    ensures MovedProperty(axis, kbs[i].key, property) in MergedProperties(axis, names, newKeys, kbs).rows <==>
      axis.Samples? || kbs[i].key in RangeKeys(newKeys, kbs)
  {
    if axis.Samples? {
      assert kbs[i].block.properties == kbs[0].block.properties;
    } else {
      RangePartsAreSound(newKeys, names, kbs);
      hide MergeInput, MergeFails;
      var keys, parts := RangeKeys(newKeys, kbs), RangeParts(newKeys, kbs);
      if kbs[i].key in keys {
        var k :| 0 <= k < |keys| && keys[k] == kbs[i].key;
        var p :| 0 <= p < |parts[k]| && parts[k][p] == property;
        ProductsAt(keys, parts, k, TotalLength(parts[..k]), p);
      } else {
        AbsentKey(keys, parts, |names|, kbs[i].key, property);
      }
    }
  }

  /** A source cell is in the merged block, under the moved labels and with the
      same value, for values and gradients alike. When values are requested for
      the moved dimensions, this holds for the requested keys. */
  lemma SourceCellIsKept(axis: Axis, names: seq<string>, newKeys: Option<seq<Row>>, kbs: seq<KeyAndBlock>, sort: bool, parameter: Option<string>,
                         i: nat, about: RowLabel, c: Index, property: Row)
    requires CanMerge(axis, names, newKeys, kbs, sort, parameter) && i < |kbs|
    requires newKeys.Some? ==> kbs[i].key in newKeys.value
    requires InRange(Counts(ComponentsOf(kbs[0].block, parameter)), c)
    ensures HasData(kbs[i].block, parameter) && HasData(Merged(axis, names, newKeys, kbs, sort), parameter)
    ensures SheetCell(SheetOf(kbs[i].block, parameter), about, c, property).Some? ==>
      SheetCell(SheetOf(Merged(axis, names, newKeys, kbs, sort), parameter), MovedLabel(axis, kbs[i].key, about), c, MovedProperty(axis, kbs[i].key, property))
      == SheetCell(SheetOf(kbs[i].block, parameter), about, c, property)
  {
    SourceHasData(axis, names, newKeys, kbs, sort, parameter, i);
    MergedSheet(axis, names, newKeys, kbs, sort, parameter);
    hide MergeInput, MergeFails, MergeDemands, Merged, SheetOf, MovedLabel, MovedProperty, ComponentsOf, SheetCell;
    if SheetCell(SheetOf(kbs[i].block, parameter), about, c, property).Some? {
      SourceCellIsMerged(axis, names, newKeys, kbs, sort, parameter, i, about, c, property,
                         MovedLabel(axis, kbs[i].key, about), MovedProperty(axis, kbs[i].key, property));
    }
  }

  lemma SourceCellIsMerged(axis: Axis, names: seq<string>, newKeys: Option<seq<Row>>, kbs: seq<KeyAndBlock>, sort: bool, parameter: Option<string>,
                           i: nat, about: RowLabel, c: Index, property: Row, newAbout: RowLabel, newProperty: Row)
    requires CanMerge(axis, names, newKeys, kbs, sort, parameter) && i < |kbs|
    requires newKeys.Some? ==> kbs[i].key in newKeys.value
    requires InRange(Counts(ComponentsOf(kbs[0].block, parameter)), c)
    requires SheetCell(SheetOf(kbs[i].block, parameter), about, c, property).Some?
    requires newAbout == MovedLabel(axis, kbs[i].key, about) && newProperty == MovedProperty(axis, kbs[i].key, property)
    ensures SheetCell(SheetOf(Merged(axis, names, newKeys, kbs, sort), parameter), newAbout, c, newProperty)
         == SheetCell(SheetOf(kbs[i].block, parameter), about, c, property)
  {
    hide CanMerge, Merged, SheetOf, MovedLabel, MovedProperty, ComponentsOf, SheetCell, Locate, KeysOf, SheetsOf;
    CellOfMerged(axis, names, newKeys, kbs, sort, parameter, newAbout, c, newProperty);
    SourceLabelsAreMerged(axis, names, newKeys, kbs, sort, parameter, i, about, c, property);
    SourceHasData(axis, names, newKeys, kbs, sort, parameter, i);
    LocateMoved(axis, kbs[i].key, about, property);
    KeyPosition(axis, names, newKeys, kbs, sort, parameter, i);
  }

  lemma SourceLabelsAreMerged(axis: Axis, names: seq<string>, newKeys: Option<seq<Row>>, kbs: seq<KeyAndBlock>, sort: bool, parameter: Option<string>,
                              i: nat, about: RowLabel, c: Index, property: Row)
    requires CanMerge(axis, names, newKeys, kbs, sort, parameter) && i < |kbs|
    requires newKeys.Some? ==> kbs[i].key in newKeys.value
    requires SheetCell(SheetOf(kbs[i].block, parameter), about, c, property).Some?
    ensures MovedLabel(axis, kbs[i].key, about) in SheetOf(Merged(axis, names, newKeys, kbs, sort), parameter).labels
    ensures MovedProperty(axis, kbs[i].key, property) in SheetOf(Merged(axis, names, newKeys, kbs, sort), parameter).properties
  {
    SourceHasData(axis, names, newKeys, kbs, sort, parameter, i);
    MergedSheet(axis, names, newKeys, kbs, sort, parameter);
    SheetProperties(kbs[i].block, parameter);
    var j := Position(SheetOf(kbs[i].block, parameter).labels, about).value;
    SourceLabelIsMerged(axis, names, newKeys, kbs, sort, parameter, i, j);
    PropertiesOfMerged(axis, names, newKeys, kbs, i, property);
    KeyPosition(axis, names, newKeys, kbs, sort, parameter, i);
  }

  lemma SheetProperties(b: Block, parameter: Option<string>)
    requires parameter.Some? ==> parameter.value in b.gradients
    ensures SheetOf(b, parameter).properties == b.properties.rows
  {}

  lemma KeyPosition(axis: Axis, names: seq<string>, newKeys: Option<seq<Row>>, kbs: seq<KeyAndBlock>, sort: bool, parameter: Option<string>, i: nat)
    requires CanMerge(axis, names, newKeys, kbs, sort, parameter) && i < |kbs|
    ensures |kbs[i].key| == |names| && Position(KeysOf(kbs), kbs[i].key) == Some(i)
    ensures kbs[i].key in KeysOf(kbs)
  {
    PositionOf(KeysOf(kbs), i);
    assert KeysOf(kbs)[i] in KeysOf(kbs);
  }

  /** Every cell of the merged block that is not zero comes from a source cell
      with the corresponding labels. */
  lemma OtherCellsAreZero(axis: Axis, names: seq<string>, newKeys: Option<seq<Row>>, kbs: seq<KeyAndBlock>, sort: bool, parameter: Option<string>,
                          about: RowLabel, c: Index, property: Row) returns (i: nat)
    requires CanMerge(axis, names, newKeys, kbs, sort, parameter)
    requires InRange(Counts(ComponentsOf(kbs[0].block, parameter)), c)
    requires SheetCell(SheetOf(Merged(axis, names, newKeys, kbs, sort), parameter), about, c, property).GetOr(ZERO) != ZERO
    ensures i < |kbs| && HasData(kbs[i].block, parameter)
    ensures var s := Locate(axis, |names|, about, property);
      && s.key == kbs[i].key && MovedLabel(axis, s.key, s.about) == about && MovedProperty(axis, s.key, s.property) == property
      && SheetCell(SheetOf(kbs[i].block, parameter), s.about, c, s.property)
         == SheetCell(SheetOf(Merged(axis, names, newKeys, kbs, sort), parameter), about, c, property)
  {
    assert kbs != [];
    hide CanMerge, Merged, SheetOf, MovedLabel, MovedProperty, ComponentsOf, SheetCell, Locate, KeysOf, SheetsOf;
    CellOfMerged(axis, names, newKeys, kbs, sort, parameter, about, c, property);
    MovedLocated(axis, |names|, about, property);
    i := Position(KeysOf(kbs), Locate(axis, |names|, about, property).key).value;
    SourceHasData(axis, names, newKeys, kbs, sort, parameter, i);
  }

  /** Sorting only changes the order of the rows: both results have rows about
      the same samples and the same value in every cell. */
  lemma SortingKeepsMeaning(axis: Axis, names: seq<string>, newKeys: Option<seq<Row>>, kbs: seq<KeyAndBlock>, parameter: Option<string>,
                            about: RowLabel, c: Index, property: Row)
    requires CanMerge(axis, names, newKeys, kbs, true, parameter) && CanMerge(axis, names, newKeys, kbs, false, parameter)
    requires InRange(Counts(ComponentsOf(kbs[0].block, parameter)), c)
    ensures var sorted, unsorted := Merged(axis, names, newKeys, kbs, true), Merged(axis, names, newKeys, kbs, false);
      && HasData(sorted, parameter) && HasData(unsorted, parameter)
      && SheetCell(SheetOf(sorted, parameter), about, c, property) == SheetCell(SheetOf(unsorted, parameter), about, c, property)
      && StrictlySorted(sorted.samples.rows)
      && unsorted.samples.rows == FirstOccurrences(AllSampleRows(axis, kbs))
      && SameElements(sorted.samples.rows, unsorted.samples.rows)
      && sorted.properties == unsorted.properties && sorted.components == unsorted.components
  {
    hide MergeInput, MergeFails, MergeDemands, MergedCell, SheetOf, MergedGradient, Gather, MergedProperties;
    CellOfMerged(axis, names, newKeys, kbs, true, parameter, about, c, property);
    CellOfMerged(axis, names, newKeys, kbs, false, parameter, about, c, property);
    LabelsOfMerged(axis, names, newKeys, kbs, true, parameter, about);
    LabelsOfMerged(axis, names, newKeys, kbs, false, parameter, about);
    MergedSheet(axis, names, newKeys, kbs, true, parameter);
    MergedSheet(axis, names, newKeys, kbs, false, parameter);
    FirstOccurrencesIsSet(AllSampleRows(axis, kbs));
    SortOfDistinct(FirstOccurrences(AllSampleRows(axis, kbs)));
  }

  /** With values requested for the moved dimensions, new property `q * n + r`
      is requested key `q` in front of old property `r`; a key that is not
      requested has no property. */
  lemma RequestedProperties(names: seq<string>, newKeys: seq<Row>, kbs: seq<KeyAndBlock>, q: nat, r: nat)
    requires MergeInput(Properties, names, Some(newKeys), kbs) && !MergeFails(Properties, Some(newKeys), kbs)
    requires q < |newKeys| && r < |kbs[0].block.properties.rows|
    ensures var rows, n := MergedProperties(Properties, names, Some(newKeys), kbs).rows, |kbs[0].block.properties.rows|;
      && |rows| == |newKeys| * n
      && q * n + r < |rows| && rows[q * n + r] == newKeys[q] + kbs[0].block.properties.rows[r]
    ensures forall i :: 0 <= i < |kbs| && kbs[i].key !in newKeys ==>
      kbs[i].key + kbs[0].block.properties.rows[r] !in MergedProperties(Properties, names, Some(newKeys), kbs).rows
  {
    var part := kbs[0].block.properties.rows;
    var parts := Repeat(|newKeys|, part);
    var start := q * |part|;
    assert parts[..q] == Repeat(q, part);
    TotalLengthOfRepeat(q, part);
    TotalLengthOfRepeat(|newKeys|, part);
    ProductsAt(newKeys, parts, q, start, r);
    forall i | 0 <= i < |kbs| && kbs[i].key !in newKeys
      ensures kbs[i].key + part[r] !in MergedProperties(Properties, names, Some(newKeys), kbs).rows
    {
      AbsentKey(newKeys, parts, |names|, kbs[i].key, part[r]);
    }
  }
}
