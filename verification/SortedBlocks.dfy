/** A block whose rows are sorted is determined by its structure and by its
    meaning: what its rows are about and the values of its cells. */
module SortedBlocks {
  import opened Wrappers
  import opened Sequences
  import opened Lexicographic
  import opened RowMajor
  import opened Arrays
  import opened Blocks
  import opened Sheets
  import opened MergeMeaning

  ghost predicate RowsAreSorted(b: Block) {
    StrictlySorted(b.samples.rows) && forall p :: p in b.gradients ==> StrictlySorted(b.gradients[p].samples.rows)
  }

  /** Two gradients of blocks with the same properties. */
  ghost predicate SameGradientStructure(a: Block, b: Block) {
    a.samples.names == b.samples.names && a.components == b.components && a.gradients == b.gradients == map[]
  }

  ghost predicate SameBlockStructure(a: Block, b: Block) {
    && a.samples.names == b.samples.names && a.components == b.components && a.properties == b.properties
    && a.gradients.Keys == b.gradients.Keys
    && forall p :: p in a.gradients ==> SameGradientStructure(a.gradients[p], b.gradients[p])
  }

  ghost predicate SameRows(a: Block, b: Block, parameter: Option<string>) {
    SameElements(SheetOf(a, parameter).labels, SheetOf(b, parameter).labels)
  }

  ghost predicate SameCells(a: Block, b: Block, parameter: Option<string>) {
    forall about, c, property :: InRange(Counts(ComponentsOf(a, parameter)), c) ==>
      SheetCell(SheetOf(a, parameter), about, c, property) == SheetCell(SheetOf(b, parameter), about, c, property)
  }

  /** The same rows and the same cells, in the values and all gradients. */
  ghost predicate SameMeaning(a: Block, b: Block) {
    forall parameter: Option<string> :: HasData(a, parameter) ==> SameRows(a, b, parameter) && SameCells(a, b, parameter)
  }

  lemma SampleLabelIn(samples: seq<Row>, row: Row)
    ensures row in samples <==> RowLabel(row, []) in SampleLabels(samples)
  {
    if row in samples {
      var k :| 0 <= k < |samples| && samples[k] == row;
      assert SampleLabels(samples)[k] == RowLabel(row, []);
    }
    if RowLabel(row, []) in SampleLabels(samples) {
      var k :| 0 <= k < |samples| && SampleLabels(samples)[k] == RowLabel(row, []);
    }
  }

  lemma SamplesAreSame(a: seq<Row>, b: seq<Row>)
    requires StrictlySorted(a) && StrictlySorted(b) && SameElements(SampleLabels(a), SampleLabels(b))
    ensures a == b
  {
    forall row ensures row in a <==> row in b {
      SampleLabelIn(a, row);
      SampleLabelIn(b, row);
    }
    StrictlySortedIsUnique(a, b);
  }

  lemma GradientLabelIn(samples: seq<Row>, rows: seq<Row>, row: Row)
    requires Distinct(samples) && RefersTo(rows, samples) && row != [] && 0 <= row[0] < |samples|
    ensures row in rows <==> GradientLabel(samples, row) in GradientLabels(samples, rows)
  {
    if row in rows {
      var k :| 0 <= k < |rows| && rows[k] == row;
      assert GradientLabels(samples, rows)[k] == GradientLabel(samples, row);
    }
    if GradientLabel(samples, row) in GradientLabels(samples, rows) {
      var k :| 0 <= k < |rows| && GradientLabels(samples, rows)[k] == GradientLabel(samples, row);
      SameGradientLabel(samples, row, rows[k]);
    }
  }

  lemma SameGradientLabel(samples: seq<Row>, row: Row, other: Row)
    requires Distinct(samples) && row != [] && other != [] && 0 <= row[0] < |samples| && 0 <= other[0] < |samples|
    requires GradientLabel(samples, row) == GradientLabel(samples, other)
    ensures row == other
  {
    assert row == [row[0]] + row[1..] && other == [other[0]] + other[1..];
    PositionOf(samples, row[0]);
    PositionOf(samples, other[0]);
  }

  lemma GradientRowsAreSame(samples: seq<Row>, a: seq<Row>, b: seq<Row>)
    requires Distinct(samples) && RefersTo(a, samples) && RefersTo(b, samples)
    requires StrictlySorted(a) && StrictlySorted(b) && SameElements(GradientLabels(samples, a), GradientLabels(samples, b))
    ensures a == b
  {
    forall row ensures row in a <==> row in b {
      if row in a || row in b {
        GradientLabelIn(samples, a, row);
        GradientLabelIn(samples, b, row);
      }
    }
    StrictlySortedIsUnique(a, b);
  }

  lemma CellOfSheet(s: Sheet, index: Index)
    requires Distinct(s.labels) && Distinct(s.properties) && |index| >= 2 && index[0] < |s.labels| && Last(index) < |s.properties|
    ensures SheetCell(s, s.labels[index[0]], Middle(index), s.properties[Last(index)]) == Some(Get(s.values, index))
  {
    PositionOf(s.labels, index[0]);
    PositionOf(s.properties, Last(index));
    CellParts(index);
  }

  /** Arrays that agree on all cells, found by label, are the same. */
  lemma ValuesAreSame(a: Sheet, b: Sheet, middle: seq<nat>)
    requires a.labels == b.labels && a.properties == b.properties && Distinct(a.labels) && Distinct(a.properties)
    requires ValidArray(a.values) && ValidArray(b.values)
    requires a.values.shape == b.values.shape == [|a.labels|] + middle + [|a.properties|]
    requires forall about, c, property :: InRange(middle, c) ==> SheetCell(a, about, c, property) == SheetCell(b, about, c, property)
    ensures a.values == b.values
  {
    forall index: Index | InRange(a.values.shape, index) ensures Get(a.values, index) == Get(b.values, index) {
      InFrame(|a.labels|, middle, |a.properties|, index);
      CellOfSheet(a, index);
      CellOfSheet(b, index);
    }
    SameArray(a.values, b.values);
  }

  lemma SameWithoutGradients(a: Block, b: Block)
    requires ValidParts(a) && ValidParts(b)
    requires a.samples.names == b.samples.names && a.components == b.components && a.properties == b.properties
    requires StrictlySorted(a.samples.rows) && StrictlySorted(b.samples.rows)
    requires SameRows(a, b, None) && SameCells(a, b, None)
    ensures a.samples == b.samples && a.values == b.values
  {
    SamplesAreSame(a.samples.rows, b.samples.rows);
    SampleLabelsAreDistinct(a.samples.rows);
    ValuesAreSame(ValuesSheet(a), ValuesSheet(b), Counts(a.components));
  }

  lemma SameGradient(a: Block, b: Block, p: string)
    requires ValidParts(a) && a.samples == b.samples && a.properties == b.properties && p in a.gradients && p in b.gradients
    requires var ga, gb := a.gradients[p], b.gradients[p];
      && ValidParts(ga) && ValidParts(gb) && GradientFits(a, ga) && GradientFits(b, gb)
      && SameGradientStructure(ga, gb) && StrictlySorted(ga.samples.rows) && StrictlySorted(gb.samples.rows)
    requires SameRows(a, b, Some(p)) && SameCells(a, b, Some(p))
    ensures a.gradients[p] == b.gradients[p]
  {
    var ga, gb := a.gradients[p], b.gradients[p];
    GradientRowsAreSame(a.samples.rows, ga.samples.rows, gb.samples.rows);
    GradientLabelsAreDistinct(a.samples.rows, ga.samples.rows);
    ValuesAreSame(GradientSheet(a, p), GradientSheet(b, p), Counts(ga.components));
  }

  /** Sorted blocks with the same structure and meaning are the same. */
  lemma SameBlocks(a: Block, b: Block)
    requires ValidBlock(a) && ValidBlock(b) && RowsAreSorted(a) && RowsAreSorted(b)
    requires SameBlockStructure(a, b) && SameMeaning(a, b)
    ensures a == b
  {
    hide SameRows, SameCells, ValidParts, GradientFits;
    assert HasData(a, None);
    SameWithoutGradients(a, b);
    forall p | p in a.gradients ensures a.gradients[p] == b.gradients[p] {
      assert HasData(a, Some(p));
      SameGradient(a, b, p);
    }
    assert a.gradients == b.gradients;
  }
}
