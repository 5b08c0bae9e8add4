/** Moving two sets of dimensions to the samples at once succeeds exactly when
    moving them one after the other does. */
module OneStepSuccess {
  import opened Wrappers
  import opened Sequences
  import opened Lexicographic
  import opened LabelSets
  import opened Blocks
  import opened Tensors
  import opened Keys
  import opened Sheets
  import opened Merging
  import opened Groups
  import opened KeyMoves
  import opened MergeMeaning
  import opened TensorMeaning
  import opened KeySplits
  import opened SortedBlocks
  import opened TwoSteps
  import opened MoveSuccess

  lemma {:induction false} LexLessExtended(a: Row, b: Row, tail: Row)
    requires |a| == |b| && LexLess(a, b)
    ensures LexLess(a + tail, b + tail)
  {
    assert (a + tail)[1..] == a[1..] + tail && (b + tail)[1..] == b[1..] + tail;
    if a[0] == b[0] {
      LexLessExtended(a[1..], b[1..], tail);
    }
  }

  ghost predicate Extends(rows: seq<Row>, tail: Row, larger: seq<Row>) {
    forall k :: 0 <= k < |rows| ==> rows[k] + tail in larger
  }

  /** A sample does not get a smaller number among more samples. */
  lemma {:induction false} NumbersGrow(rows: seq<Row>, size: nat, tail: Row, larger: seq<Row>, k: nat)
    requires StrictlySorted(rows) && OfSize(rows, size) && StrictlySorted(larger) && Extends(rows, tail, larger) && k < |rows|
    ensures Position(larger, rows[k] + tail).Some? && k <= Position(larger, rows[k] + tail).value
  {
    if k > 0 {
      NumbersGrow(rows, size, tail, larger, k - 1);
      LexLessExtended(rows[k - 1], rows[k], tail);
      var before, here := Position(larger, rows[k - 1] + tail).value, Position(larger, rows[k] + tail).value;
      if here <= before {
        LexIrreflexive(rows[k] + tail);
        if here < before {
          LexTransitive(rows[k] + tail, rows[k - 1] + tail, rows[k] + tail);
        }
      }
    }
  }

  /** A sample of a source block is a sample after the move. */
  lemma SampleGoes(t: TensorMap, dimensions: seq<string>, i: nat, j: nat, key: Row)
    requires ValidTensor(t) && t.keys.rows != [] && i < |t.keys.rows| && j < |t.blocks[i].samples.rows| && key == t.keys.rows[i]
    ensures t.blocks[i].samples.rows[j] + MovedPart(t.keys, dimensions, key)
         in SamplesAfter(t, dimensions, RemainingPart(t.keys, dimensions, key))
  {
    hide GroupIndices, RemainingKeys, RemainingPart, MovedPart, SamplesAfter, MergedSampleRows;
    var g := GroupOf(t.keys, dimensions, i);
    SamplesOfGroup(t, dimensions, i, g);
    var k := BlockInGroup(t, dimensions, i, g);
    var kbs := Group(t, dimensions, g);
    SampleRowIsMerged(Samples, kbs, true, k, j);
  }

  lemma AfterGroup(t: TensorMap, dimensions: seq<string>, newKey: Row) returns (g: nat)
    requires ValidTensor(t) && t.keys.rows != [] && newKey in RemainingKeys(t.keys, dimensions).rows
    ensures g < GroupCount(t, dimensions) && RemainingKeys(t.keys, dimensions).rows[g] == newKey
    ensures GroupIndices(t.keys, dimensions, g) != []
    ensures forall i :: i in GroupIndices(t.keys, dimensions, g) ==>
      0 <= i < |t.keys.rows| == |t.blocks| && RemainingPart(t.keys, dimensions, t.keys.rows[i]) == newKey
  {
    g := Position(RemainingKeys(t.keys, dimensions).rows, newKey).value;
    GroupIsNotEmpty(t.keys, dimensions, g);
    hide RemainingKeys, RemainingPart;
    forall i | i in GroupIndices(t.keys, dimensions, g)
      ensures 0 <= i < |t.keys.rows| == |t.blocks| && RemainingPart(t.keys, dimensions, t.keys.rows[i]) == newKey
    {
      RemainingPartIsGroup(t.keys, dimensions, i, g);
    }
  }

  lemma NothingElsewhere(t: TensorMap, dimensions: seq<string>, newKey: Row)
    requires ValidTensor(t) && t.keys.rows != [] && newKey !in RemainingKeys(t.keys, dimensions).rows
    ensures SamplesAfter(t, dimensions, newKey) == []
  {
    MovedCount(Samples, t, dimensions, None, true);
  }

  /** Every sample after the move comes from a sample of a source block. */
  lemma SampleComes(t: TensorMap, dimensions: seq<string>, newKey: Row, row: Row) returns (i: nat, j: nat)
    requires ValidTensor(t) && t.keys.rows != [] && row in SamplesAfter(t, dimensions, newKey)
    ensures i < |t.keys.rows| == |t.blocks| && RemainingPart(t.keys, dimensions, t.keys.rows[i]) == newKey
    ensures j < |t.blocks[i].samples.rows| && row == t.blocks[i].samples.rows[j] + MovedPart(t.keys, dimensions, t.keys.rows[i])
  {
    KeysAreDistinct(t);
    hide GroupIndices, RemainingKeys, RemainingPart, MovedPart, SamplesAfter, MergedSampleRows, ValidTensor;
    if newKey !in RemainingKeys(t.keys, dimensions).rows {
      NothingElsewhere(t, dimensions, newKey);
      assert false;
    }
    var g := AfterGroup(t, dimensions, newKey);
    var first := GroupIndices(t.keys, dimensions, g)[0];
    assert first in GroupIndices(t.keys, dimensions, g);
    SamplesOfGroup(t, dimensions, first, g);
    var kbs := Group(t, dimensions, g);
    MergedSampleRowsAreDistinct(Samples, kbs, true);
    InAllSampleRows(Samples, kbs, row);
    var k :| 0 <= k < |kbs| && row in SampleRows(Samples, kbs[k]);
    j :| 0 <= j < |SampleRows(Samples, kbs[k])| && SampleRows(Samples, kbs[k])[j] == row;
    i := BlockOfGroup(t, dimensions, g, k);
  }

  lemma SamplesAfterAreSorted(t: TensorMap, dimensions: seq<string>, newKey: Row)
    requires ValidTensor(t) && t.keys.rows != []
    ensures StrictlySorted(SamplesAfter(t, dimensions, newKey))
  {
    hide GroupIndices, RemainingKeys, RemainingPart, SamplesAfter, ValidTensor;
    if newKey in RemainingKeys(t.keys, dimensions).rows {
      var g := AfterGroup(t, dimensions, newKey);
      var first := GroupIndices(t.keys, dimensions, g)[0];
      assert first in GroupIndices(t.keys, dimensions, g);
      SamplesOfGroup(t, dimensions, first, g);
      FirstOccurrencesIsSet(AllSampleRows(Samples, Group(t, dimensions, g)));
      SortOfDistinct(FirstOccurrences(AllSampleRows(Samples, Group(t, dimensions, g))));
    } else {
      NothingElsewhere(t, dimensions, newKey);
    }
  }

  lemma SamplesAfterHaveSize(t: TensorMap, dimensions: seq<string>, newKey: Row)
    requires ValidTensor(t) && t.keys.rows != []
    ensures OfSize(SamplesAfter(t, dimensions, newKey), |t.blocks[0].samples.names| + |dimensions|)
  {
    var rows := SamplesAfter(t, dimensions, newKey);
    forall k | 0 <= k < |rows| ensures |rows[k]| == |t.blocks[0].samples.names| + |dimensions| {
      assert rows[k] in rows;
      var i, j := SampleComes(t, dimensions, newKey, rows[k]);
      SampleSize(t, i, j);
    }
  }

  lemma SampleSize(t: TensorMap, i: nat, j: nat)
    requires ValidTensor(t) && i < |t.blocks| && j < |t.blocks[i].samples.rows|
    ensures |t.blocks[i].samples.rows[j]| == |t.blocks[0].samples.names|
  {
    assert ValidBlock(t.blocks[i]);
    assert SameStructure(t.blocks[0], t.blocks[i]);
  }

  ghost predicate StepsInput(t: TensorMap, first: seq<string>, second: seq<string>) {
    MoveInput(t, first + second)
  }

  lemma ValidNamesSplit(first: seq<string>, second: seq<string>)
    requires ValidNames(first + second)
    ensures ValidNames(first) && ValidNames(second)
  {
    var both := first + second;
    assert forall k :: 0 <= k < |first| ==> both[k] == first[k];
    assert forall k :: 0 <= k < |second| ==> both[|first| + k] == second[k];
    forall i, j | 0 <= i < j < |second| ensures second[i] != second[j] {
      assert both[|first| + i] != both[|first| + j];
    }
  }

  lemma FirstInput(t: TensorMap, first: seq<string>, second: seq<string>)
    requires StepsInput(t, first, second)
    ensures MoveInput(t, first) && Splits(t.keys, first, second)
  {
    ValidNamesSplit(first, second);
    Known(t.keys, first, second);
  }

  lemma SecondInput(t: TensorMap, first: seq<string>, second: seq<string>)
    requires StepsInput(t, first, second) && CanMoveToSamples(t, first)
    ensures MoveInput(ToSamples(t, first), second)
  {
    hide CanMoveKeys, ValidTensor, Moved, RemainingKeys;
    ValidNamesSplit(first, second);
    FirstInput(t, first, second);
    Known(t.keys, first, second);
    ValidAfter(t, first);
    KnownAfter(t.keys, first, second);
  }

  lemma KnownAfter(keys: Labels, first: seq<string>, second: seq<string>)
    requires Splits(keys, first, second)
    ensures KnownDimensions(RemainingKeys(keys, first), second)
  {
    Known(keys, first, second);
    if RemainingPositions(keys, first) == [] {
      NothingLeft(keys, first, second);
    } else {
      forall d | d in second ensures d in RemainingKeys(keys, first).names {
        forall l | 0 <= l < |first| ensures MovedPositions(keys, first)[l] != Position(keys.names, d).value {
          assert first[l] in first;
        }
        RemainingPosition(keys.names, MovedPositions(keys, first), d);
      }
    }
  }

  lemma SampleSplit(keys: Labels, first: seq<string>, second: seq<string>, key: Row, sample: Row)
    requires Splits(keys, first, second) && |key| == |keys.names|
    ensures sample + MovedPart(keys, first + second, key)
         == sample + MovedPart(keys, first, key) + MovedPart(RemainingKeys(keys, first), second, RemainingPart(keys, first, key))
    ensures RemainingPart(RemainingKeys(keys, first), second, RemainingPart(keys, first, key)) == RemainingPart(keys, first + second, key)
  {
    PartsSplit(keys, first, second, key);
    hide MovedPart, RemainingPart, RemainingKeys;
    assert sample + MovedPart(keys, first, key) + MovedPart(RemainingKeys(keys, first), second, RemainingPart(keys, first, key))
        == sample + (MovedPart(keys, first, key) + MovedPart(RemainingKeys(keys, first), second, RemainingPart(keys, first, key)));
  }

  lemma MiddleSamples(t: TensorMap, dimensions: seq<string>, h: nat, key: Row)
    requires ValidTensor(t) && t.keys.rows != []
    requires h < |ToSamples(t, dimensions).keys.rows| && key == ToSamples(t, dimensions).keys.rows[h]
    ensures |ToSamples(t, dimensions).keys.rows| == |ToSamples(t, dimensions).blocks|
    ensures SamplesAfter(t, dimensions, key) == ToSamples(t, dimensions).blocks[h].samples.rows
    ensures ToSamples(t, dimensions).keys == RemainingKeys(t.keys, dimensions)
  {
    hide Moved, BlockAt, RemainingKeys, ValidTensor;
    MiddleBlock(t, dimensions, h, key);
    MovedCount(Samples, t, dimensions, None, true);
  }

  lemma SampleGoesTwice(t: TensorMap, first: seq<string>, second: seq<string>, i: nat, j: nat, key: Row)
    requires StepsInput(t, first, second)
    requires ValidTensor(ToSamples(t, first)) && ToSamples(t, first).keys.rows != []
    requires i < |t.keys.rows| && j < |t.blocks[i].samples.rows| && key == t.keys.rows[i]
    ensures t.blocks[i].samples.rows[j] + MovedPart(t.keys, first + second, key)
         in SamplesAfter(ToSamples(t, first), second, RemainingPart(t.keys, first + second, key))
  {
    FirstInput(t, first, second);
    KeySizes(t);
    hide StepsInput, RemainingKeys, RemainingPart, MovedPart, ToSamples, SamplesAfter, ValidTensor, Splits, BlockAt;
    var h := MiddleKey(t, first, i, key);
    var middle, middleKey, sample := ToSamples(t, first), RemainingPart(t.keys, first, key), t.blocks[i].samples.rows[j];
    SampleSplit(t.keys, first, second, key, sample);
    SampleGoes(t, first, i, j, key);
    MiddleSamples(t, first, h, middleKey);
    var l :| 0 <= l < |middle.blocks[h].samples.rows| && middle.blocks[h].samples.rows[l] == sample + MovedPart(t.keys, first, key);
    SampleGoes(middle, second, h, l, middleKey);
  }

  lemma SampleComesTwice(t: TensorMap, first: seq<string>, second: seq<string>, newKey: Row, row: Row)
    requires StepsInput(t, first, second)
    requires ValidTensor(ToSamples(t, first)) && ToSamples(t, first).keys.rows != []
    requires row in SamplesAfter(ToSamples(t, first), second, newKey)
    ensures row in SamplesAfter(t, first + second, newKey)
  {
    FirstInput(t, first, second);
    KeySizes(t);
    hide StepsInput, RemainingKeys, RemainingPart, MovedPart, ToSamples, SamplesAfter, ValidTensor, Splits, BlockAt;
    var middle := ToSamples(t, first);
    var h, l := SampleComes(middle, second, newKey, row);
    var middleKey, between := middle.keys.rows[h], middle.blocks[h].samples.rows[l];
    MiddleSamples(t, first, h, middleKey);
    var i, j := SampleComes(t, first, middleKey, between);
    SampleSplit(t.keys, first, second, t.keys.rows[i], t.blocks[i].samples.rows[j]);
    SampleGoes(t, first + second, i, j, t.keys.rows[i]);
  }

  /** The samples are the same after one step and after two. */
  lemma SamplesBothWays(t: TensorMap, first: seq<string>, second: seq<string>, newKey: Row)
    requires StepsInput(t, first, second)
    requires ValidTensor(ToSamples(t, first)) && ToSamples(t, first).keys.rows != []
    ensures SamplesAfter(t, first + second, newKey) == SamplesAfter(ToSamples(t, first), second, newKey)
  {
    var one, two := SamplesAfter(t, first + second, newKey), SamplesAfter(ToSamples(t, first), second, newKey);
    hide CanMoveKeys, RemainingKeys, RemainingPart, MovedPart, Moved, BlockAt, ValidTensor, SamplesAfter;
    forall row ensures row in one <==> row in two {
      if row in one {
        var i, j := SampleComes(t, first + second, newKey, row);
        SampleGoesTwice(t, first, second, i, j, t.keys.rows[i]);
      } else if row in two {
        SampleComesTwice(t, first, second, newKey, row);
      }
    }
    SamplesAfterAreSorted(t, first + second, newKey);
    SamplesAfterAreSorted(ToSamples(t, first), second, newKey);
    StrictlySortedIsUnique(one, two);
  }

  /** A gradient row is about a sample of its block. */
  lemma LabelSample(t: TensorMap, i: nat, p: string, about: RowLabel) returns (j: nat)
    requires ValidTensor(t) && i < |t.blocks| && p in t.blocks[i].gradients && about in SheetOf(t.blocks[i], Some(p)).labels
    ensures j < |t.blocks[i].samples.rows| && t.blocks[i].samples.rows[j] == about.sample
  {
    var b := t.blocks[i];
    assert ValidBlock(b);
    var rows := b.gradients[p].samples.rows;
    var r :| 0 <= r < |rows| && GradientLabels(b.samples.rows, rows)[r] == about;
    j := rows[r][0];
  }

  lemma SamplesExtend(t: TensorMap, first: seq<string>, second: seq<string>, key: Row)
    requires StepsInput(t, first, second) && |key| == |t.keys.names|
    ensures Extends(SamplesAfter(t, first, RemainingPart(t.keys, first, key)),
                    MovedPart(RemainingKeys(t.keys, first), second, RemainingPart(t.keys, first, key)),
                    SamplesAfter(t, first + second, RemainingPart(t.keys, first + second, key)))
  {
    FirstInput(t, first, second);
    KeySizes(t);
    hide StepsInput, RemainingKeys, RemainingPart, MovedPart, ToSamples, SamplesAfter, ValidTensor, Splits, BlockAt;
    var middleKey := RemainingPart(t.keys, first, key);
    var rows := SamplesAfter(t, first, middleKey);
    PartsSplit(t.keys, first, second, key);
    forall k | 0 <= k < |rows|
      ensures rows[k] + MovedPart(RemainingKeys(t.keys, first), second, middleKey)
           in SamplesAfter(t, first + second, RemainingPart(t.keys, first + second, key))
    {
      assert rows[k] in rows;
      var i, j := SampleComes(t, first, middleKey, rows[k]);
      SampleSplit(t.keys, first, second, t.keys.rows[i], t.blocks[i].samples.rows[j]);
      SampleGoes(t, first + second, i, j, t.keys.rows[i]);
    }
  }

  /** If the numbers fit after both moves, they fit after the first. */
  lemma FirstNumberFits(t: TensorMap, first: seq<string>, second: seq<string>, i: nat, j: nat, key: Row)
    requires StepsInput(t, first, second) && i < |t.keys.rows| && key == t.keys.rows[i] && j < |t.blocks[i].samples.rows|
    requires NumberFits(t, first + second, key, t.blocks[i].samples.rows[j])
    ensures NumberFits(t, first, key, t.blocks[i].samples.rows[j])
  {
    FirstInput(t, first, second);
    KeySizes(t);
    hide StepsInput, RemainingKeys, RemainingPart, MovedPart, ToSamples, SamplesAfter, ValidTensor, Splits, BlockAt;
    var sample, middleKey := t.blocks[i].samples.rows[j], RemainingPart(t.keys, first, key);
    var rows := SamplesAfter(t, first, middleKey);
    SampleGoes(t, first, i, j, key);
    SampleSplit(t.keys, first, second, key, sample);
    SamplesExtend(t, first, second, key);
    SamplesAfterAreSorted(t, first, middleKey);
    SamplesAfterAreSorted(t, first + second, RemainingPart(t.keys, first + second, key));
    SamplesAfterHaveSize(t, first, middleKey);
    var k := Position(rows, sample + MovedPart(t.keys, first, key)).value;
    NumbersGrow(rows, |t.blocks[0].samples.names| + |first|, MovedPart(RemainingKeys(t.keys, first), second, middleKey),
                SamplesAfter(t, first + second, RemainingPart(t.keys, first + second, key)), k);
  }

  lemma FirstNumbersFit(t: TensorMap, first: seq<string>, second: seq<string>, i: nat, p: string)
    requires StepsInput(t, first, second) && i < |t.keys.rows| == |t.blocks| && p in t.blocks[i].gradients
    requires NumbersFit(t, first + second, i, p)
    ensures NumbersFit(t, first, i, p)
  {
    hide NumberFits, SheetOf, ValidTensor;
    forall about | about in SheetOf(t.blocks[i], Some(p)).labels ensures NumberFits(t, first, t.keys.rows[i], about.sample) {
      var j := LabelSample(t, i, p, about);
      FirstNumberFits(t, first, second, i, j, t.keys.rows[i]);
    }
  }

  lemma NamesAllowFirst(b: Block, first: seq<string>, second: seq<string>)
    requires NamesAllow(b, first + second)
    ensures NamesAllow(b, first)
  {
    var all, part := b.samples.names + (first + second), b.samples.names + first;
    assert forall k :: 0 <= k < |part| ==> all[k] == part[k];
  }

  lemma NamesAllowSecond(b: Block, r: Block, first: seq<string>, second: seq<string>)
    requires StructureKept(b, r, first)
    ensures b.samples.names != [] && NamesAllow(b, first) ==> (NamesAllow(r, second) <==> NamesAllow(b, first + second))
  {
    assert r.samples.names + second == b.samples.names + (first + second);
    forall p | p in r.gradients ensures GradientStructureKept(b.gradients[p], r.gradients[p]) {}
  }

  lemma SameGroupSplit(keys: Labels, first: seq<string>, second: seq<string>, i: nat, j: nat)
    requires Splits(keys, first, second) && SameGroup(keys, first, i, j)
    ensures SameGroup(keys, first + second, i, j)
  {
    hide RemainingPart, RemainingKeys, MovedPart;
    PartsSplit(keys, first, second, keys.rows[i]);
    PartsSplit(keys, first, second, keys.rows[j]);
  }

  /** What both moves at once need is enough for the first. */
  lemma FirstIsAdmitted(t: TensorMap, first: seq<string>, second: seq<string>)
    requires StepsInput(t, first, second) && Admits(t, first + second)
    ensures Admits(t, first)
  {
    KeysAreDistinct(t);
    FirstInput(t, first, second);
    NamesAllowFirst(t.blocks[0], first, second);
    hide StepsInput, NamesAllow, SameGroup, SameShape, NumbersFit, ValidTensor, Splits;
    forall i: nat, j: nat | SameGroup(t.keys, first, i, j) ensures SameShape(t.blocks[i], t.blocks[j]) {
      SameGroupSplit(t.keys, first, second, i, j);
    }
    forall i, p | 0 <= i < |t.keys.rows| && p in t.blocks[i].gradients ensures NumbersFit(t, first, i, p) {
      FirstNumbersFit(t, first, second, i, p);
    }
  }

  lemma SameShapeIsKept(a: Block, b: Block, ra: Block, rb: Block, names: seq<string>)
    requires StructureKept(a, ra, names) && StructureKept(b, rb, names)
    ensures SameShape(a, b) <==> SameShape(ra, rb)
  {
    forall p | p in a.gradients && p in b.gradients
      ensures Counts(a.gradients[p].components) == Counts(ra.gradients[p].components)
      ensures Counts(b.gradients[p].components) == Counts(rb.gradients[p].components)
    {
      assert GradientStructureKept(a.gradients[p], ra.gradients[p]) && GradientStructureKept(b.gradients[p], rb.gradients[p]);
    }
  }

  /** The source block, or one of them, of a block after the first move. */
  lemma SourceBlock(t: TensorMap, first: seq<string>, second: seq<string>, h: nat) returns (i: nat)
    requires StepsInput(t, first, second) && CanMoveToSamples(t, first) && h < |ToSamples(t, first).keys.rows|
    ensures var middle := ToSamples(t, first);
      && i < |t.keys.rows| == |t.blocks| && h < |middle.blocks| && |t.keys.rows[i]| == |t.keys.names|
      && RemainingPart(t.keys, first, t.keys.rows[i]) == middle.keys.rows[h]
      && RemainingPart(middle.keys, second, middle.keys.rows[h]) == RemainingPart(t.keys, first + second, t.keys.rows[i])
      && StructureKept(t.blocks[i], middle.blocks[h], first)
  {
    FirstInput(t, first, second);
    KeySizes(t);
    hide StepsInput, RemainingKeys, RemainingPart, MovedPart, Moved, ValidTensor, Splits, BlockAt, StructureKept, CanMoveKeys, RowsAreSorted;
    MovedCount(Samples, t, first, None, true);
    i := BlockOfKey(t, first, ToSamples(t, first).keys.rows[h]);
    PartsSplit(t.keys, first, second, t.keys.rows[i]);
    StructureIsKept(t, first, i, t.keys.rows[i]);
    MiddleBlock(t, first, h, ToSamples(t, first).keys.rows[h]);
  }

  lemma AdmittedShapes(t: TensorMap, dimensions: seq<string>, i: nat, j: nat)
    requires ValidTensor(t) && t.keys.rows != [] && Admits(t, dimensions) && SameGroup(t.keys, dimensions, i, j)
    ensures i < |t.blocks| && j < |t.blocks| && SameShape(t.blocks[i], t.blocks[j])
  {}

  lemma AdmittedNumbers(t: TensorMap, dimensions: seq<string>, i: nat, p: string)
    requires ValidTensor(t) && t.keys.rows != [] && Admits(t, dimensions)
    requires i < |t.keys.rows| == |t.blocks| && p in t.blocks[i].gradients
    ensures NumbersFit(t, dimensions, i, p)
  {}

  lemma MiddleShapes(t: TensorMap, first: seq<string>, second: seq<string>, h: nat, l: nat)
    requires StepsInput(t, first, second) && CanMoveToSamples(t, first) && Admits(t, first + second)
    requires SameGroup(ToSamples(t, first).keys, second, h, l)
    ensures h < |ToSamples(t, first).blocks| && l < |ToSamples(t, first).blocks|
    ensures SameShape(ToSamples(t, first).blocks[h], ToSamples(t, first).blocks[l])
  {
    var middle := ToSamples(t, first);
    hide StepsInput, Admits, RemainingPart, ToSamples, SameShape, StructureKept, CanMoveToSamples, ValidTensor;
    var i := SourceBlock(t, first, second, h);
    var j := SourceBlock(t, first, second, l);
    assert SameGroup(t.keys, first + second, i, j);
    AdmittedShapes(t, first + second, i, j);
    SameShapeIsKept(t.blocks[i], t.blocks[j], middle.blocks[h], middle.blocks[l], first);
  }

  lemma MiddleNumbersFit(t: TensorMap, first: seq<string>, second: seq<string>, h: nat, p: string)
    requires StepsInput(t, first, second) && CanMoveToSamples(t, first) && Admits(t, first + second)
    requires ValidTensor(ToSamples(t, first)) && h < |ToSamples(t, first).keys.rows| == |ToSamples(t, first).blocks|
    requires p in ToSamples(t, first).blocks[h].gradients
    ensures NumbersFit(ToSamples(t, first), second, h, p)
  {
    var middle := ToSamples(t, first);
    forall about | about in SheetOf(middle.blocks[h], Some(p)).labels ensures NumberFits(middle, second, middle.keys.rows[h], about.sample) {
      MiddleNumberFits(t, first, second, h, p, about);
    }
  }

  /** The number of a sample after both moves is small in both ways. */
  lemma NumberFitsTwice(t: TensorMap, first: seq<string>, second: seq<string>, key: Row, sample: Row)
    requires StepsInput(t, first, second) && |key| == |t.keys.names|
    requires ValidTensor(ToSamples(t, first)) && ToSamples(t, first).keys.rows != []
    ensures NumberFits(t, first + second, key, sample)
       <==> NumberFits(ToSamples(t, first), second, RemainingPart(t.keys, first, key), sample + MovedPart(t.keys, first, key))
  {
    FirstInput(t, first, second);
    MovedCount(Samples, t, first, None, true);
    hide StepsInput, RemainingKeys, RemainingPart, MovedPart, ToSamples, SamplesAfter, ValidTensor, Splits, BlockAt;
    assert ToSamples(t, first).keys == RemainingKeys(t.keys, first) by {
      MovedKeys(t, first);
    }
    SampleSplit(t.keys, first, second, key, sample);
    SamplesBothWays(t, first, second, RemainingPart(t.keys, first + second, key));
  }

  lemma MovedKeys(t: TensorMap, dimensions: seq<string>)
    requires ValidTensor(t) && t.keys.rows != []
    ensures ToSamples(t, dimensions).keys == RemainingKeys(t.keys, dimensions)
  {
    MovedCount(Samples, t, dimensions, None, true);
  }

  lemma AllHaveData(t: TensorMap, i: nat, p: string)
    requires ValidTensor(t) && i < |t.blocks| && p in t.blocks[i].gradients
    ensures HasData(t.blocks[0], Some(p))
    ensures forall j :: 0 <= j < |t.blocks| ==> p in t.blocks[j].gradients
  {
    SameStructureOfGradients(t.blocks[0], t.blocks[i], p);
    forall j | 0 <= j < |t.blocks| ensures p in t.blocks[j].gradients {
      SameStructureOfGradients(t.blocks[0], t.blocks[j], p);
    }
  }

  lemma SourceHasGradient(t: TensorMap, first: seq<string>, second: seq<string>, h: nat, p: string)
    requires StepsInput(t, first, second) && CanMoveToSamples(t, first)
    requires h < |ToSamples(t, first).keys.rows| == |ToSamples(t, first).blocks| && p in ToSamples(t, first).blocks[h].gradients
    ensures HasData(t.blocks[0], Some(p))
    ensures forall j :: 0 <= j < |t.blocks| ==> p in t.blocks[j].gradients
  {
    hide CanMoveToSamples, ToSamples, RemainingPart, ValidTensor;
    var i := SourceBlock(t, first, second, h);
    AllHaveData(t, i, p);
  }

  lemma MiddleNumberFits(t: TensorMap, first: seq<string>, second: seq<string>, h: nat, p: string, about: RowLabel)
    requires StepsInput(t, first, second) && CanMoveToSamples(t, first) && Admits(t, first + second)
    requires ValidTensor(ToSamples(t, first)) && h < |ToSamples(t, first).keys.rows| == |ToSamples(t, first).blocks|
    requires p in ToSamples(t, first).blocks[h].gradients && about in SheetOf(ToSamples(t, first).blocks[h], Some(p)).labels
    ensures NumberFits(ToSamples(t, first), second, ToSamples(t, first).keys.rows[h], about.sample)
  {
    KeySizes(t);
    hide CanMoveKeys, ToSamples, RemainingPart, MovedPart, ValidTensor, Admits, SheetOf, BlockAt, NumberFits, StepsInput;
    var middleKey := ToSamples(t, first).keys.rows[h];
    SourceHasGradient(t, first, second, h, p);
    MiddleBlock(t, first, h, middleKey);
    var i, source := SampleRowHasSource(t, first, Some(p), middleKey, about);
    AdmittedNumbers(t, first + second, i, p);
    assert NumberFits(t, first + second, t.keys.rows[i], source.sample);
    NumberFitsTwice(t, first, second, t.keys.rows[i], source.sample);
  }

  lemma SecondIsAdmitted(t: TensorMap, first: seq<string>, second: seq<string>)
    requires StepsInput(t, first, second) && CanMoveToSamples(t, first) && Admits(t, first + second)
    requires MoveInput(ToSamples(t, first), second)
    ensures Admits(ToSamples(t, first), second)
  {
    var middle := ToSamples(t, first);
    KeysAreDistinct(t);
    KeysAreDistinct(middle);
    NamesAllowFirst(t.blocks[0], first, second);
    assert NamesAllow(t.blocks[0], first + second);
    hide StepsInput, CanMoveToSamples, ToSamples, ValidTensor, Admits, NamesAllow, SameGroup, SameShape, NumbersFit, StructureKept;
    MiddleNamesAllow(t, first, second);
    forall h: nat, l: nat | SameGroup(middle.keys, second, h, l) ensures SameShape(middle.blocks[h], middle.blocks[l]) {
      MiddleShapes(t, first, second, h, l);
    }
    forall h, p | 0 <= h < |middle.keys.rows| && p in middle.blocks[h].gradients ensures NumbersFit(middle, second, h, p) {
      MiddleNumbersFit(t, first, second, h, p);
    }
    assert Admits(middle, second) by {
      AdmitsFromParts(middle, second);
    }
  }

  lemma AdmitsFromParts(t: TensorMap, dimensions: seq<string>)
    requires ValidTensor(t) && t.keys.rows != [] && |t.keys.rows| == |t.blocks|
    requires NamesAllow(t.blocks[0], dimensions)
    requires forall i: nat, j: nat :: SameGroup(t.keys, dimensions, i, j) ==> SameShape(t.blocks[i], t.blocks[j])
    requires forall i, p :: 0 <= i < |t.keys.rows| && p in t.blocks[i].gradients ==> NumbersFit(t, dimensions, i, p)
    ensures Admits(t, dimensions)
  {
    hide ValidTensor, NamesAllow, SameGroup, SameShape, NumbersFit;
  }

  lemma MiddleNamesAllow(t: TensorMap, first: seq<string>, second: seq<string>)
    requires StepsInput(t, first, second) && CanMoveToSamples(t, first)
    requires ToSamples(t, first).keys.rows != [] && |ToSamples(t, first).blocks| == |ToSamples(t, first).keys.rows|
    requires t.blocks != [] && NamesAllow(t.blocks[0], first)
    ensures NamesAllow(ToSamples(t, first).blocks[0], second) <==> NamesAllow(t.blocks[0], first + second)
  {
    hide CanMoveToSamples, ToSamples, NamesAllow, StructureKept, RemainingPart, ValidTensor;
    var i := SourceBlock(t, first, second, 0);
    NamesAllowAll(t, first, i);
    NamesAllowSecond(t.blocks[i], ToSamples(t, first).blocks[0], first, second);
    NamesAllowTransfer(t, first + second, i);
    NamesAreGiven(t.blocks[i], first);
  }

  lemma NamesAreGiven(b: Block, names: seq<string>)
    requires NamesAllow(b, names)
    ensures b.samples.names != []
  {}

  lemma NamesAllowTransfer(t: TensorMap, dimensions: seq<string>, i: nat)
    requires ValidTensor(t) && i < |t.blocks|
    ensures NamesAllow(t.blocks[0], dimensions) <==> NamesAllow(t.blocks[i], dimensions)
  {
    SameStructureOfGradients(t.blocks[0], t.blocks[i], "");
    forall p | p in t.blocks[i].gradients
      ensures t.blocks[0].gradients[p].gradients == map[] <==> t.blocks[i].gradients[p].gradients == map[]
    {
      SameStructureOfGradients(t.blocks[0], t.blocks[i], p);
      SameStructureOfGradients(t.blocks[0].gradients[p], t.blocks[i].gradients[p], "");
    }
  }

  /** Where a block goes in the first move. */
  lemma TargetBlock(t: TensorMap, first: seq<string>, second: seq<string>, i: nat) returns (h: nat)
    requires StepsInput(t, first, second) && CanMoveToSamples(t, first) && i < |t.keys.rows|
    ensures var middle := ToSamples(t, first);
      && |t.keys.rows| == |t.blocks| && h < |middle.keys.rows| == |middle.blocks| && |t.keys.rows[i]| == |t.keys.names|
      && RemainingPart(t.keys, first, t.keys.rows[i]) == middle.keys.rows[h]
      && RemainingPart(middle.keys, second, middle.keys.rows[h]) == RemainingPart(t.keys, first + second, t.keys.rows[i])
      && BlockAt(middle, middle.keys.rows[h]) == middle.blocks[h]
      && StructureKept(t.blocks[i], middle.blocks[h], first)
  {
    FirstInput(t, first, second);
    KeySizes(t);
    hide StepsInput, RemainingKeys, RemainingPart, MovedPart, Moved, ValidTensor, Splits, BlockAt, StructureKept, CanMoveKeys, RowsAreSorted;
    h := MiddleKey(t, first, i, t.keys.rows[i]);
    PartsSplit(t.keys, first, second, t.keys.rows[i]);
    StructureIsKept(t, first, i, t.keys.rows[i]);
  }

  lemma SourceShapes(t: TensorMap, first: seq<string>, second: seq<string>, i: nat, j: nat)
    requires StepsInput(t, first, second) && CanMoveToSamples(t, first)
    requires ValidTensor(ToSamples(t, first)) && ToSamples(t, first).keys.rows != [] && Admits(ToSamples(t, first), second)
    requires SameGroup(t.keys, first + second, i, j) && |t.keys.rows| == |t.blocks|
    ensures SameShape(t.blocks[i], t.blocks[j])
  {
    var middle := ToSamples(t, first);
    KeysAreDistinct(middle);
    hide StepsInput, Admits, RemainingPart, ToSamples, SameShape, StructureKept, CanMoveToSamples, ValidTensor, BlockAt;
    var h := TargetBlock(t, first, second, i);
    var l := TargetBlock(t, first, second, j);
    assert SameGroup(middle.keys, second, h, l);
    AdmittedShapes(middle, second, h, l);
    SameShapeIsKept(t.blocks[i], t.blocks[j], middle.blocks[h], middle.blocks[l], first);
  }

  lemma SourceNumberFits(t: TensorMap, first: seq<string>, second: seq<string>, i: nat, h: nat, p: string, about: RowLabel)
    requires StepsInput(t, first, second) && CanMoveToSamples(t, first)
    requires ValidTensor(ToSamples(t, first)) && h < |ToSamples(t, first).keys.rows| == |ToSamples(t, first).blocks|
    requires NumbersFit(ToSamples(t, first), second, h, p)
    requires i < |t.keys.rows| == |t.blocks| && |t.keys.rows[i]| == |t.keys.names|
    requires RemainingPart(t.keys, first, t.keys.rows[i]) == ToSamples(t, first).keys.rows[h]
    requires p in t.blocks[i].gradients && about in SheetOf(t.blocks[i], Some(p)).labels
    ensures NumberFits(t, first + second, t.keys.rows[i], about.sample)
  {
    var key := t.keys.rows[i];
    AllHaveData(t, i, p);
    hide CanMoveKeys, ToSamples, RemainingPart, MovedPart, ValidTensor, SheetOf, BlockAt, NumberFits, StepsInput;
    MiddleBlock(t, first, h, ToSamples(t, first).keys.rows[h]);
    RowGoes(t, first, Some(p), i, about, key);
    NumberFitsTwice(t, first, second, key, about.sample);
  }

  lemma RowGoes(t: TensorMap, dimensions: seq<string>, parameter: Option<string>, i: nat, about: RowLabel, key: Row)
    requires CanMoveToSamples(t, dimensions) && HasData(t.blocks[0], parameter)
    requires i < |t.keys.rows| == |t.blocks| && key == t.keys.rows[i] && about in SheetOf(t.blocks[i], parameter).labels
    ensures RowLabel(about.sample + MovedPart(t.keys, dimensions, key), about.rest)
         in SheetOf(BlockAt(ToSamples(t, dimensions), RemainingPart(t.keys, dimensions, key)), parameter).labels
  {
    hide CanMoveKeys, RemainingPart, MovedPart, ValidTensor, SheetOf, BlockAt, Moved;
    RowIsMoved(Samples, t, dimensions, None, true, parameter, i, about, key);
  }

  lemma SourceNumbersFit(t: TensorMap, first: seq<string>, second: seq<string>, i: nat, p: string)
    requires StepsInput(t, first, second) && CanMoveToSamples(t, first)
    requires ValidTensor(ToSamples(t, first)) && ToSamples(t, first).keys.rows != [] && Admits(ToSamples(t, first), second)
    requires i < |t.keys.rows| == |t.blocks| && p in t.blocks[i].gradients
    ensures NumbersFit(t, first + second, i, p)
  {
    var middle := ToSamples(t, first);
    hide CanMoveKeys, ToSamples, RemainingPart, MovedPart, ValidTensor, SheetOf, BlockAt, NumberFits, Admits, StepsInput;
    var h := TargetBlock(t, first, second, i);
    AdmittedNumbers(middle, second, h, p);
    forall about | about in SheetOf(t.blocks[i], Some(p)).labels ensures NumberFits(t, first + second, t.keys.rows[i], about.sample) {
      SourceNumberFits(t, first, second, i, h, p, about);
    }
  }

  /** What the two moves need is enough for both at once. */
  lemma BothAreAdmitted(t: TensorMap, first: seq<string>, second: seq<string>)
    requires StepsInput(t, first, second) && CanMoveToSamples(t, first) && CanMoveToSamples(ToSamples(t, first), second)
    ensures Admits(t, first + second)
  {
    var middle := ToSamples(t, first);
    KeysAreDistinct(t);
    KeysAreDistinct(middle);
    CanMoveAdmits(t, first);
    CanMoveAdmits(middle, second);
    assert NamesAllow(t.blocks[0], first) && NamesAllow(middle.blocks[0], second);
    hide StepsInput, CanMoveKeys, ToSamples, ValidTensor, Admits, NamesAllow, SameGroup, SameShape, NumbersFit;
    MiddleNamesAllow(t, first, second);
    forall i: nat, j: nat | SameGroup(t.keys, first + second, i, j) ensures SameShape(t.blocks[i], t.blocks[j]) {
      SourceShapes(t, first, second, i, j);
    }
    forall i, p | 0 <= i < |t.keys.rows| && p in t.blocks[i].gradients ensures NumbersFit(t, first + second, i, p) {
      SourceNumbersFit(t, first, second, i, p);
    }
    AdmitsFromParts(t, first + second);
  }

  /** One step equals two: moving both sets of dimensions at once succeeds
      exactly when moving them one after the other does, and the results are
      the same. */
  lemma OneStepEqualsTwo(t: TensorMap, first: seq<string>, second: seq<string>)
    requires StepsInput(t, first, second)
    ensures CanMoveToSamples(t, first + second)
       <==> CanMoveToSamples(t, first) && CanMoveToSamples(ToSamples(t, first), second)
    ensures CanMoveToSamples(t, first + second) ==>
      ToSamples(ToSamples(t, first), second) == ToSamples(t, first + second)
  {
    FirstInput(t, first, second);
    hide CanMoveKeys, ToSamples, ValidTensor, Admits, StepsInput;
    if CanMoveToSamples(t, first + second) {
      CanMoveAdmits(t, first + second);
      FirstIsAdmitted(t, first, second);
      AdmitsCanMove(t, first);
      SecondInput(t, first, second);
      SecondIsAdmitted(t, first, second);
      AdmitsCanMove(ToSamples(t, first), second);
      TwoStepsAreOne(t, first, second);
    }
    if CanMoveToSamples(t, first) && CanMoveToSamples(ToSamples(t, first), second) {
      BothAreAdmitted(t, first, second);
      AdmitsCanMove(t, first + second);
    }
  }
}
