# A verified model of the metatensor core

This Dafny project models the core of metatensor, a block-sparse labelled
tensor: a `TensorMap` maps integer-tuple keys to blocks, and a block is an
n-dimensional array whose axes are described by `Labels`, with gradient blocks
nested inside it. `dafny verify dfyconfig.toml` checks the whole project.

Values are 64-bit patterns with a distinguished zero. An array is a shape and
one value per index in range (`Arrays`), which is the contract that
`mts_array_t` documents; the C++ `SimpleDataArray` is a separate class proved
against that contract. Objects that the source changes in place are classes:
`TensorBlocks.TensorBlock`, `IndexedLabels.Labels`, `HeaderParsers.HeaderParser`,
`Bytes.Reader`, `BlockWriting.Archive`, `SimpleDataArrays.SimpleDataArray`.
Their methods are proved against functions on values, and the main results are
lemmas about these functions.

## Main results

- **Meaning of the merges.** A tensor map denotes a partial function from
  (key, what the row is about, component indices, property) to a value, for the
  values and for each gradient. A row of a gradient is about the *label* of the
  sample it points at, not its number, so re-pointing is part of the claim.
  Moving keys to properties or samples keeps every cell under the moved labels,
  and every other cell is zero (`TensorMeaning`). Only when values are given for
  the moved dimensions, cells at keys that were not asked for are dropped, and
  no property is left for them (`MergeMeaning.RequestedProperties`). The same is
  stated without any of the model's own functions in between: each value of the
  old arrays is found in the new ones under labels that say the same, column by
  column and by name, and nothing else is there (`NamedColumns`).
- **Order of rows.** Sorted samples, and the samples of all gradients, ascend by
  the integer in the first column where they differ; unsorted samples are in
  the order in which they occur first (`RowOrders`).
- **Errors.** Moving keys fails exactly for unknown dimensions, nested
  gradients, or two blocks with the same remaining key that have different
  components or, where it matters, different properties (`MoveErrors`).
- **No internal failure.** The merged blocks pass every check of
  `TensorBlock::new`, `add_gradient` and `TensorMap::new`; the lookups behind
  the `expect` calls find what they look for.
- **One step equals two.** With sorted samples, moving two sets of key
  dimensions at once succeeds exactly when moving one after the other does, and
  gives the identical tensor map (`OneStepSuccess.OneStepEqualsTwo`). For the
  properties, where the moved dimensions come in another order, the keys and
  the rows are the same and every value stands under both moved parts, also
  with given values (`PropertySteps`).
- **Component moves, exactly.** The meaning of a block and of all nested
  gradients is kept for all data if and only if the order of the remaining
  components survives the axis swap (`BlockMoves.MoveKeepsMeaningExactly`).
- **Files.** The NPY header parser accepts exactly the layouts of a header;
  headers, labels, arrays, blocks and tensor maps are read back from what is
  written, and a tensor map is read back if and only if no gradient parameter
  at any depth has a `/` in its name. Whatever is loaded is a valid tensor map,
  and can be saved and loaded again as the same one. Which bytes and which
  archives are accepted, and which integer, number, label or block they stand
  for, is stated by places, literal bytes and paths (`HeaderContents`,
  `LabelFiles`, `DataFiles`, `ArchiveContents`).
- **Labels as an indexed set.** The lazily built or pre-seeded index agrees
  with a linear scan; union, intersection and select obey their set laws with
  exact mappings. The intersection depends on the order of its operands exactly
  if they have equally many entries and list common ones in different orders.
- **The C++ array.** `swap_axes` is right for all data if and only if at most
  one axis has a size other than 1, or there is no data; the component loop of
  `move_samples_from` ends if and only if there is one component axis, or the
  first is empty.

## Where the code differs from what is documented

- `components_to_properties` (metatensor-core/src/blocks.rs:330) swaps the moved
  component with the last one. The other components keep their order only under
  `ComponentMoves.OrderKept`: the component is the last one, or the axes it jumps
  over or the axis that takes its place have one entry, or there is no data.
- `swap_axes` of the C++ array (metatensor-core/include/metatensor.hpp:709-723)
  reads positions with the first axis fastest and writes them with the last axis
  fastest. It permutes the data, even when an axis is swapped with itself.
- `move_samples_from` (metatensor-core/include/metatensor.hpp:782-792) never
  carries into the first component axis, so it only works without components or
  with one axis of them.
- A header with an empty shape, or with an empty compound type, is written but
  not accepted when it is read.
- Gradients in one group of blocks should have the same components, but only
  debug builds look at the values of these labels
  (metatensor-core/src/tensor/keys_to_properties.rs:285 and
  metatensor-core/src/tensor/keys_to_samples.rs:193). The model is the release
  build: gradients with equally many component entries are merged by position,
  under the components of the first block (`FirstBlocks.ComponentsAreFirst`).

That the result of an intersection may depend on the order of the operands is
no such difference: metatensor-core/src/labels.rs promises nothing about it.

## Model

| member | source | states |
|---|---|---|
| KeysToProperties.KeysToProperties | metatensor-core/src/tensor/keys_to_properties.rs:41-118 | fails exactly for an empty map or when a group can not be merged; otherwise a valid tensor map with one merged block per remaining key, the moved names in front of the old property names, sorted rows ascending, and exactly the requested values if some are given |
| KeysToProperties.MergeGroup | metatensor-core/src/tensor/keys_to_properties.rs:57-115 | the block of one remaining key is the merge of all its blocks, on both paths |
| KeysToProperties.MergeBlocksAlongProperties | metatensor-core/src/tensor/keys_to_properties.rs:123-321 | the loops build the block that is specified by labels, gradients included, and never abort after the checks |
| KeysToProperties.NewProperties | metatensor-core/src/tensor/keys_to_properties.rs:168-204 | the new property labels are the specified ones, with the moved names in front of the old ones |
| PropertyRanges.CollectProperties | metatensor-core/src/tensor/keys_to_properties.rs:184-190 | inserting into a set one by one gives one contiguous range per moved key |
| PropertyRanges.CollectRequestedProperties | metatensor-core/src/tensor/keys_to_properties.rs:171-180 | one range per requested key, so the length assertion holds |
| PropertyRanges.ProductsAt | metatensor-core/src/tensor/keys_to_properties.rs:216-242 | the ranges tile the property axis in order, with known contents |
| PropertyRanges.OneLookupSuffices | metatensor-core/src/tensor/keys_to_properties.rs:226-241 | looking up the first property of a block finds where its whole property list is, or that it is nowhere |
| BlockMerging.CollectRanges | metatensor-core/src/tensor/keys_to_properties.rs:218-242 | the range of every block from one lookup; none for blocks without properties or with a key that was not requested |
| BlockMerging.RangeIsFound | metatensor-core/src/tensor/keys_to_properties.rs:218-242 | the lookup finds a range exactly for blocks with properties and a requested key |
| BlockMerging.RangesAreRight | metatensor-core/src/tensor/keys_to_properties.rs:229-241 | for every block of a merge, the range holds all its properties behind its key |
| BlockMerging.CheckBlocks | metatensor-core/src/tensor/keys_to_properties.rs:131-159 | the checks fail exactly for nested gradients, different components, or different properties where they have to agree |
| BlockMerging.ScatterValues | metatensor-core/src/tensor/keys_to_properties.rs:246-255 | scattering by position gives the values specified by label |
| BlockMerging.MapGradientSamples | metatensor-core/src/tensor/keys_to_properties.rs:287-302 | every re-pointed gradient row is found in the merged rows |
| BlockMerging.MapAllGradients | metatensor-core/src/tensor/keys_to_properties.rs:278-302 | the same for all blocks that have a range |
| BlockMerging.ScatterGradients | metatensor-core/src/tensor/keys_to_properties.rs:275-308 | scattering gradient rows by position gives the gradient specified by label |
| BlockMerging.MergeGradient | metatensor-core/src/tensor/keys_to_properties.rs:265-315 | one merged gradient is a valid block with the specified contents |
| BlockMerging.AddMergedGradients | metatensor-core/src/tensor/keys_to_properties.rs:264-318 | every gradient can be added, and the block becomes the specified one |
| BlockMerging.BuildMerged | metatensor-core/src/tensor/keys_to_properties.rs:257-320 | the block is built without failing |
| BlockMerging.SampleKeepsLabel | metatensor-core/src/tensor/utils.rs:158-174 | the new row of a sample has the label of the old one, extended by the moved key for samples |
| BlockMerging.RepointKeepsLabel | metatensor-core/src/tensor/utils.rs:99-109 | a re-pointed gradient row is about the same sample as before, extended by the moved key for samples |
| BlockMerging.ValuesCanPlace | metatensor-core/src/tensor/keys_to_properties.rs:246-255 | the rows of a block go to distinct rows, its properties to its range, and no other cell is about them |
| BlockMerging.GradientCanPlace | metatensor-core/src/tensor/keys_to_properties.rs:278-308 | no two gradient rows of a block collide, and they fit the merged gradient |
| Sheets.GatherStep | metatensor-core/src/data.rs:152-165 | copying rows and a property range of one more block is the same as gathering its cells by label |
| Sheets.GatherSkip | metatensor-core/src/tensor/keys_to_properties.rs:248 | passing over a block without a range loses no cell that has a place |
| Sheets.ScatterBlocks | metatensor-core/src/tensor/keys_to_properties.rs:246-255 | the whole loop turns zeros into the gathered array |
| Merging.MergeSamples | metatensor-core/src/tensor/utils.rs:123-177 | merged rows are each source row once, in order of first occurrence, or ascending if sorted; the mappings say where each row went |
| Merging.CollectSamples | metatensor-core/src/tensor/utils.rs:132-142 | the insertion-ordered set of all sample rows |
| Merging.MapAllSamples | metatensor-core/src/tensor/utils.rs:158-174 | every lookup succeeds |
| Merging.MergeGradientSamples | metatensor-core/src/tensor/utils.rs:85-121 | merged gradient rows are the re-pointed rows of all blocks, each once and ascending |
| Merging.CollectGradientSamples | metatensor-core/src/tensor/utils.rs:90-110 | the ordered set of re-pointed rows, for row numbers that fit a label value |
| Merging.GradientIsPresent | metatensor-core/src/tensor/utils.rs:93 | every block of a merge has the gradients of the first one, with the same names |
| Lexicographic.LexLessExactly | metatensor-core/src/labels.rs:18 | a row is smaller exactly if it is a proper prefix, or has the smaller integer in the first column where the two differ |
| RowOrders.UnsortedInOrder | metatensor-core/src/tensor/utils.rs:132-142 | without sorting, an earlier row occurs, block by block, before every occurrence of a later one |
| RowOrders.MovedRowsAscend | metatensor-core/src/tensor/utils.rs:144-146 | in every block after a move, samples ascend if sorting is on, and the samples of gradients always do |
| MergedBlocks.MergedIsValid | metatensor-core/src/tensor/keys_to_properties.rs:257-317 | merged blocks and gradients pass `TensorBlock::new` and `add_gradient` |
| MergeMeaning.LabelsOfMerged | metatensor-core/src/tensor/utils.rs:123-177 | rows of a merged block are about exactly what rows of its sources are about, once the key has moved |
| MergeMeaning.PropertiesOfMerged | metatensor-core/src/tensor/keys_to_properties.rs:168-204 | a moved property is there if and only if its key has a range |
| MergeMeaning.SourceCellIsKept | metatensor-core/src/tensor/keys_to_properties.rs:246-308 | every source cell, of values and gradients, has its value under the moved labels |
| MergeMeaning.OtherCellsAreZero | metatensor-core/src/tensor/keys_to_properties.rs:206-308 | every merged cell that is not zero is a source cell under the labels without the moved key |
| MergeMeaning.SortingKeepsMeaning | metatensor-core/src/tensor/utils.rs:144-146 | the sort flag changes the order of rows only: sorted or first-occurrence order, the same cells and gradients |
| MergeMeaning.RequestedProperties | metatensor-core/src/tensor/keys_to_properties.rs:169-180 | new property q*n+r is requested key q in front of old property r; keys not requested have no property |
| KeysToSamples.KeysToSamples | metatensor-core/src/tensor/keys_to_samples.rs:31-105 | fails exactly for an empty map, given values, or a group that can not be merged; otherwise the specified valid tensor map, with the moved names behind the old sample names and sorted rows ascending |
| KeysToSamples.MergeGroup | metatensor-core/src/tensor/keys_to_samples.rs:48-102 | the block of one remaining key is the merge of all its blocks, on both paths |
| KeysToSamples.MergeBlocksAlongSamples | metatensor-core/src/tensor/keys_to_samples.rs:109-229 | the loops build the specified block and never abort after the checks |
| LosslessMoves.EveryRowOnce | metatensor-core/src/tensor/keys_to_samples.rs:144-226 | merged rows and gradient rows are exactly the moved rows of all sources, each once, so their numbers add up |
| LosslessMoves.OneSourcePerRow | metatensor-core/src/tensor/keys_to_samples.rs:165-171 | no merged row is written from two source rows |
| Keys.RemoveDimensionsFromKeys | metatensor-core/src/tensor/utils.rs:27-83 | fails exactly for unknown dimensions; the remaining keys once each in first-occurrence order, or one placeholder |
| Keys.ExtractedPositions | metatensor-core/src/tensor/utils.rs:38-45 | the position of each dimension in the keys |
| Keys.RemainingColumns | metatensor-core/src/tensor/utils.rs:47-54 | the other positions, ascending, with their names |
| Keys.RemainingEntries | metatensor-core/src/tensor/utils.rs:56-63 | each remaining entry once |
| Keys.RemainingKeysAreValid | metatensor-core/src/tensor/utils.rs:65-77 | the remaining keys are valid labels, so building them never fails |
| Groups.GroupsPartitionTheBlocks | metatensor-core/src/tensor/keys_to_properties.rs:58-115 | every block is in exactly one group, groups are not empty and list blocks in key order |
| Groups.SingleGroupHasAllBlocks | metatensor-core/src/tensor/keys_to_properties.rs:58-81 | taking all blocks at once is the same as looking for the matching ones |
| Groups.GroupIsMergeable | metatensor-core/src/tensor/utils.rs:56-63 | the moved keys within a group are distinct |
| Groups.SelectionFindsGroup | metatensor-core/src/tensor/keys_to_properties.rs:85-90 | selecting by the remaining names finds the columns they were taken from |
| Groups.BlocksOfGroup | metatensor-core/src/tensor/keys_to_properties.rs:58-105 | both ways to find the blocks of a group give the group, with the moved part of each key |
| KeyMoves.MovedIsValid | metatensor-core/src/tensor/keys_to_properties.rs:117 | merged blocks have the same structure, so `TensorMap::new` accepts them |
| TensorMeaning.CellIsMoved | metatensor-core/src/tensor/keys_to_properties.rs:41-118 | what stood at a key stands at its remaining part, with the moved part in the labels |
| TensorMeaning.NonzeroCellHasSource | metatensor-core/src/tensor/keys_to_properties.rs:41-118 | every cell of the result that is not zero was at a key with that remaining part |
| TensorMeaning.RowIsMoved | metatensor-core/src/tensor/keys_to_samples.rs:31-105 | no row about something is lost |
| TensorMeaning.MovedRowHasSource | metatensor-core/src/tensor/keys_to_samples.rs:31-105 | no row is made up |
| FirstBlocks.ComponentsAreFirst | metatensor-core/src/tensor/keys_to_properties.rs:276 | the components of a merged block and of its gradients are those of the first block with that remaining key |
| FirstBlocks.FirstsCompose | metatensor-core/src/tensor/utils.rs:56-63 | the first block of a group is the same when dimensions are removed in two steps |
| NamedColumns.ValueIsMovedByName | metatensor-core/src/tensor/keys_to_properties.rs:41-118 | each value of a block is in the new array of the block for its remaining key, at a sample and a property that hold the old columns under their names, and the key's values under the names of the moved dimensions |
| NamedColumns.GradientValueIsMovedByName | metatensor-core/src/tensor/keys_to_properties.rs:264-318 | the same for each value of a gradient, whose new row refers to the same sample |
| NamedColumns.NonzeroValueHasSourceByName | metatensor-core/src/tensor/keys_to_properties.rs:206-255 | each value of the new arrays that is not zero comes from such a place |
| NamedColumns.NamesAfter | metatensor-core/src/tensor/keys_to_samples.rs:144-163 | all blocks have the moved names in front of the old property names, or behind the old sample names |
| NamedColumns.RequestedAfter | metatensor-core/src/tensor/keys_to_properties.rs:169-180 | with values given, the properties are exactly these values in front of the old properties |
| NamedColumns.RemainingNames | metatensor-core/src/tensor/utils.rs:47-77 | the new keys have the other names in their order, or are the single entry `_` = 0 |
| NamedColumns.NewKeyHasSource | metatensor-core/src/tensor/utils.rs:56-63 | every new key holds the remaining columns of an old one, by name |
| MoveErrors.MoveFailsExactly | metatensor-core/src/tensor/keys_to_properties.rs:131-159 | the error exactly for unknown dimensions, nested gradients, or two blocks that agree on the other dimensions but not on the components, or on properties that have to agree |
| KeySplits.PartsSplit | metatensor-core/src/tensor/utils.rs:38-54 | removing dimensions in two steps splits a key as removing them at once |
| KeySplits.RemainingKeysSplit | metatensor-core/src/tensor/utils.rs:56-77 | the remaining keys, and their order, do not depend on the number of steps |
| PropertySteps.KeysAgree | metatensor-core/src/tensor/keys_to_properties.rs:41-118 | moving two sets of dimensions to the properties, at once or one after the other, leaves the same keys in the same order |
| PropertySteps.RowsAgree | metatensor-core/src/tensor/keys_to_properties.rs:41-118 | both ways the rows of values and gradients at every key are about the same |
| PropertySteps.ValuesAgree | metatensor-core/src/tensor/keys_to_properties.rs:41-118 | both ways every value stands under both moved parts, which come in swapped order; elsewhere both are zero |
| SortedBlocks.SameBlocks | metatensor-core/src/tensor/utils.rs:144-146 | blocks with sorted rows are the same if their structure and meaning are |
| TwoSteps.TwoStepsAreOne | metatensor-core/src/tensor/keys_to_samples.rs:31-105 | both ways of moving two sets of dimensions give the identical tensor map |
| MoveSuccess.CanMoveIffAdmits | metatensor-core/src/tensor/keys_to_samples.rs:109-142 | a move succeeds exactly under conditions on the blocks of the original tensor map |
| OneStepSuccess.NumbersGrow | metatensor-core/src/tensor/utils.rs:99-109 | a sorted sample does not get a smaller number among more samples |
| OneStepSuccess.OneStepEqualsTwo | metatensor-core/src/tensor/keys_to_samples.rs:31-105 | both ways succeed on the same inputs, with the same result |
| Tensors.NewTensorMap | metatensor-core/src/tensor/mod.rs:126-175 | accepts exactly one block per key and blocks with the same structure |
| Tensors.SameStructureExactly | metatensor-core/src/tensor/mod.rs:69-116 | blocks have the same structure exactly if their property names agree, and every path of parameters leads to gradients with the same names, or to none, in both |
| Tensors.CheckLabelsNames | metatensor-core/src/tensor/mod.rs:30-67 | accepts exactly the same sample and component names |
| Tensors.NewGradientMap | metatensor-core/src/tensor/mod.rs:103-116 | the loop collects the structure of all gradients, recursively |
| Tensors.BlocksMatching | metatensor-core/src/tensor/mod.rs:211-256 | exactly the blocks whose keys agree with the selection, ascending; fails exactly for unknown names or not one entry |
| TensorComponents.ComponentsToProperties | metatensor-core/src/tensor/mod.rs:260-272 | moves a component in copies of all blocks, or fails if one block lacks it; the result is a valid tensor map |
| TensorComponents.CloneBlock | metatensor-core/src/blocks.rs:150-169 | a copy with the same contents that shares no block with the original |
| TensorComponents.MovedStructure | metatensor-core/src/tensor/mod.rs:260-272 | blocks with the same structure still have the same structure afterwards |
| TensorComponents.ComponentsMovedIsValid | metatensor-core/src/tensor/mod.rs:260-272 | the tensor map stays valid although nothing checks it again |
| TensorBlocks.CheckComponentLabels | metatensor-core/src/blocks.rs:88-105 | accepts exactly components with one dimension and some entry |
| TensorBlocks.CountNames | metatensor-core/src/blocks.rs:56-63 | counting different names finds repeated ones |
| TensorBlocks.CheckDataAndLabels | metatensor-core/src/blocks.rs:32-86 | accepts exactly the shape the labels ask for, with distinct component names |
| TensorBlocks.WellLabelledExactly | metatensor-core/src/blocks.rs:32-105 | the sizes and names that a new block needs, axis by axis |
| TensorBlocks.JoinProperties | metatensor-core/src/blocks.rs:302-323 | every component entry in front of every property, as valid labels |
| TensorBlocks.TensorBlock.New | metatensor-core/src/blocks.rs:127-146 | a block is built exactly when the checks accept its labels |
| TensorBlocks.TensorBlock.CheckGradient | metatensor-core/src/blocks.rs:220-271 | accepts exactly the gradients whose first sample column is called `sample` and refers to a sample of the block, whose last components are those of the block, and whose properties are the same |
| TensorBlocks.TensorBlock.AddGradient | metatensor-core/src/blocks.rs:201-279 | keeps the invariant; fails exactly for a taken parameter or a gradient that does not fit, and then changes nothing |
| TensorBlocks.TensorBlock.MoveOwnComponent | metatensor-core/src/blocks.rs:300-333 | one axis swap and one reshape that never fails, with the joined labels |
| TensorBlocks.TensorBlock.MoveGradients | metatensor-core/src/blocks.rs:335-338 | the move succeeds in all nested gradients |
| TensorBlocks.TensorBlock.ComponentsToProperties | metatensor-core/src/blocks.rs:283-341 | the whole tree becomes the specified one, or nothing changes |
| BlockMoves.JoinedPropertyAt | metatensor-core/src/blocks.rs:314-319 | joined property m*P+p is component entry m in front of property p |
| BlockMoves.GradientAxis | metatensor-core/src/blocks.rs:257-271 | gradients have the component at the same distance from the end |
| BlockMoves.MoveComponentIsValid | metatensor-core/src/blocks.rs:283-341 | the move keeps the block invariant at every depth, with properties equal to the parent's |
| BlockMoves.MoveKeepsMeaning | metatensor-core/src/blocks.rs:325-338 | with the component order kept, every value is where the joined labels say, under the name of the component in front of the property names, in all nested gradients |
| BlockMoves.MoveKeepsMeaningExactly | metatensor-core/src/blocks.rs:325-338 | this holds for all values if and only if the component order is kept |
| ComponentMoves.NextToLastKeepsOrder | metatensor-core/src/blocks.rs:330 | the order is kept for the last and the second-to-last component |
| ComponentMoves.MovedSize | metatensor-core/src/blocks.rs:325-331 | the reshape has the right number of values |
| ComponentMoves.MoveKeepsCells | metatensor-core/src/blocks.rs:330-331 | with the order kept, cell (s, c, p) goes to (s, c without the axis, c[axis]*P+p) |
| ComponentMoves.MoveLosesCells | metatensor-core/src/blocks.rs:330 | otherwise there is an array that changes its meaning |
| ComponentMoves.MoveKeepsMeaningExactly | metatensor-core/src/blocks.rs:330-331 | the two cases are exact, for every shape |
| Arrays.MoveLeavesOthers | metatensor-core/src/data.rs:152-158 | cells outside the addressed rows and range keep their values |
| Arrays.MoveCopies | metatensor-core/src/data.rs:152-158 | addressed cells get the values of their source row |
| IndexedLabels.IsValidLabelName | metatensor-core/src/labels.rs:111-127 | accepts exactly identifiers: letters, digits and underscores, not starting with a digit |
| IndexedLabels.InitPositions | metatensor-core/src/labels.rs:211-220 | the index finds for every entry what a linear scan finds |
| IndexedLabels.NamesAreUnique | metatensor-core/src/labels.rs:257-264 | accepts exactly distinct names |
| IndexedLabels.RowsAreUnique | metatensor-core/src/labels.rs:283-294 | sorting and comparing neighbours accepts exactly distinct entries |
| IndexedLabels.Labels.New | metatensor-core/src/labels.rs:248-302 | labels are built exactly for distinct identifiers and distinct entries |
| IndexedLabels.Labels.GetOrInitPositions | metatensor-core/src/labels.rs:374-376 | the index, built or not, agrees with a linear scan |
| IndexedLabels.Labels.Contains | metatensor-core/src/labels.rs:361-364 | true exactly for the entries |
| IndexedLabels.Labels.PositionOf | metatensor-core/src/labels.rs:368-372 | the position a linear scan finds |
| IndexedLabels.Labels.Union | metatensor-core/src/labels.rs:391-434 | first entries, then new second ones; every mapped position holds the entry itself; the pre-seeded index is right |
| IndexedLabels.AddEntries | metatensor-core/src/labels.rs:409-426 | buffer, index and mapping stay in step |
| IndexedLabels.Labels.CommonEntries | metatensor-core/src/labels.rs:465-481 | common entries in the order of the first; both mappings, with -1 exactly for absent entries |
| IndexedLabels.Labels.Intersection | metatensor-core/src/labels.rs:441-489 | common entries, which stand before each other as in the operand with fewer entries, or in the first one for equal sizes; mappings point at equal entries after the argument swap, and are -1 for absent ones |
| IndexedLabels.Labels.Select | metatensor-core/src/labels.rs:504-546 | positions of exactly the entries that agree with some selected one in the columns of its names, in selection order for equal names and ascending otherwise; fails exactly for unknown names |
| IndexedLabels.Labels.SelectEntries | metatensor-core/src/labels.rs:509-516 | one position per selected entry that is there |
| IndexedLabels.Labels.SelectMatching | metatensor-core/src/labels.rs:531-542 | the positions of all entries whose columns are selected |
| RowSets.UnionIsInsertion | metatensor-core/src/labels.rs:409-420 | the union is what an insertion-ordered set would hold |
| RowSets.CountsAddUp | metatensor-core/src/labels.rs:391-489 | sizes of union and intersection add up to those of the operands |
| RowSets.IntersectionFollowsFewer | metatensor-core/src/labels.rs:448-453 | common entries stand before each other exactly as they do in the operand with fewer entries |
| RowSets.KeptBothWays | metatensor-core/src/labels.rs:465-467 | looking up either operand's entries in the other gives the same list exactly if common entries stand in the same order in both |
| RowSets.IntersectionCommutesExactly | metatensor-core/src/labels.rs:448-489 | swapping the operands gives the same entries in the same order if and only if the sizes differ or common entries stand in the same order in both |
| RowSets.MappingsAreSwapped | metatensor-core/src/labels.rs:441-489 | the mapping of an operand is the same in both roles exactly if the result is |
| RowSets.IntersectionDependsOnOrder | metatensor-core/src/labels.rs:449 | entries 1, 2 against 2, 1: the result changes when the operands are swapped |
| RowSets.FoundAgree | metatensor-core/src/labels.rs:509-516 | with the same names, the positions are those of the selected entries, in their order |
| RowSets.MatchingAgree | metatensor-core/src/labels.rs:518-542 | with other names, they are those of the entries that hold the selected values under the selected names, ascending |
| RowSets.FoundPositionsAre | metatensor-core/src/labels.rs:509-516 | each matching entry once, in selection order |
| RowSets.MatchingPositionsAre | metatensor-core/src/labels.rs:531-542 | each matching entry once, ascending |
| HeaderParsers.HeaderParser.SkipWhitespaces | metatensor-core/src/io/npy_header.rs:319-325 | skips blanks, and aborts at the end of the text |
| HeaderParsers.HeaderParser.ParseString | metatensor-core/src/io/npy_header.rs:327-349 | a string in either kind of quotes |
| HeaderParsers.HeaderParser.ParseInteger | metatensor-core/src/io/npy_header.rs:351-368 | a decimal number that fits 64 bits |
| HeaderParsers.HeaderParser.ParseDataType | metatensor-core/src/io/npy_header.rs:370-417 | a scalar or compound type |
| HeaderParsers.HeaderParser.ParseBool | metatensor-core/src/io/npy_header.rs:419-438 | `True` or `False`, letter by letter |
| HeaderParsers.HeaderParser.ParseShape | metatensor-core/src/io/npy_header.rs:440-464 | a list of sizes |
| HeaderParsers.HeaderParser.ParseEntries | metatensor-core/src/io/npy_header.rs:475-506 | the loop over the keys, in any order; repeated keys replace earlier ones |
| HeaderParsers.HeaderParser.Parse | metatensor-core/src/io/npy_header.rs:466-518 | the method computes the parsing function, with the same position and the same errors, and ends |
| NpySyntax.LayoutDoesNotMatter | metatensor-core/src/io/npy_header.rs:319-518 | any key order, padding, quotes and trailing commas are read as the same header, without reading past the end |
| NpyLayouts.OnlyLayoutsAreRead | metatensor-core/src/io/npy_header.rs:319-518 | every accepted text is such a layout |
| NpyLayouts.ReadExactlyIfLayout | metatensor-core/src/io/npy_header.rs:319-518 | a text is read as a header if and only if it is one of its layouts |
| NpyHeaders.TypeToString | metatensor-core/src/io/npy_header.rs:265-278 | the text of a type |
| NpyHeaders.ToDictLiteral | metatensor-core/src/io/npy_header.rs:567-584 | the literal, piece by piece |
| NpyHeaders.HeaderToBytes | metatensor-core/src/io/npy_header.rs:586-614 | the bytes of a header, or an error if it is too long |
| NpyHeaders.LengthsAreRight | metatensor-core/src/io/npy_header.rs:200-217 | the total is a multiple of 64 with room for the newline, and the field holds the rest |
| NpyHeaders.HeaderFromReader | metatensor-core/src/io/npy_header.rs:527-565 | reading step by step gives what the bytes stand for, and stops behind the header |
| HeaderContents.HeaderIsReadExactly | metatensor-core/src/io/npy_header.rs:527-565 | bytes are read as a header exactly if they are the magic string, a known version, the length with its lowest byte first, and that many bytes of a text that stands for the header, ending in a newline |
| HeaderContents.TextParsesExactly | metatensor-core/src/io/npy_header.rs:319-518 | a text stands for a header exactly if it is one of its layouts, with spaces, tabs and form feeds as blanks, either kind of quotes, and sizes of 64 bits |
| HeaderContents.LastEntryCounts | metatensor-core/src/io/npy_header.rs:466-518 | of repeated keys the last one counts |
| HeaderContents.MissingEntries | metatensor-core/src/io/npy_header.rs:508-517 | a key is missing exactly if no entry has it |
| HeaderContents.DigitCounts | metatensor-core/src/io/npy_header.rs:351-368 | a digit counts as often as the power of ten of its place |
| HeaderContents.DecimalIsShortest | metatensor-core/src/io/npy_header.rs:578-581 | sizes are written without leading zeros, as digits for their value |
| HeaderContents.WrittenHeaderIs | metatensor-core/src/io/npy_header.rs:586-614 | the bytes that are written: magic string, version, length, literal, spaces and newline, each at its place |
| HeaderContents.ExampleLiteral | metatensor-core/src/io/npy_header.rs:567-584 | the literal of a small header, letter by letter |
| NpyRoundTrip.LiteralIsLayout | metatensor-core/src/io/npy_header.rs:567-584 | what is written is one of the layouts |
| NpyRoundTrip.LiteralIsReadBack | metatensor-core/src/io/npy_header.rs:521-584 | quote-free literals with some dimension and field are read back |
| NpyRoundTrip.EmptyListsFail | metatensor-core/src/io/npy_header.rs:440-464 | an empty shape or compound type is refused |
| NpyBytes.HeaderIsAligned | metatensor-core/src/io/npy_header.rs:586-614 | a multiple of 64 bytes that ends in a newline; version 2.0 exactly for literals of 65525 bytes or more |
| NpyBytes.TooLongExactly | metatensor-core/src/io/npy_header.rs:594-597 | the error exactly for literals of 4294967283 bytes or more, whose padded length does not fit in 32 bits |
| NpyBytes.HeaderIsReadBack | metatensor-core/src/io/npy_header.rs:527-614 | a quote-free header is read back exactly if it is ASCII with some dimension and field, and refused otherwise |
| QuotedHeaders.HeaderIsReadBackExactly | metatensor-core/src/io/npy_header.rs:527-614 | a written header is read back as itself if and only if its strings are ASCII without single quotes, and it has some dimension and field |
| Bytes.ByteOfNumber | metatensor-core/src/io/npy_header.rs:175-189 | byte i of a number is its digit i to the base 256, from the front or from the back |
| Bytes.NumberOfBytes | metatensor-core/src/io/npy_header.rs:161-170 | bytes stand for the sum of their digits to the base 256, from the front or from the back |
| Bytes.SignedFourBytes | metatensor-core/src/io/labels.rs:56-59 | four bytes of either order as a two's complement integer, with the weights written out |
| Bytes.EightBytes | metatensor-core/src/io/block.rs:143-148 | eight bytes of either order, with the weights written out |
| Bytes.Utf8Table | metatensor-core/src/io/npy_header.rs:559-561 | the lengths, the ranges and the value of the bytes of a character, as in section 3 of RFC 3629 |
| Bytes.DecodedExactly | metatensor-core/src/io/npy_header.rs:559-561 | bytes are decoded to a text exactly if they are its encoding |
| Bytes.AsciiIsKept | metatensor-core/src/io/npy_header.rs:551-557 | ASCII texts are exactly those encoded as ASCII bytes, and are decoded again |
| Bytes.DecodedIsEncoded | metatensor-core/src/io/npy_header.rs:559-561 | what decodes as UTF-8 is the encoding of its text |
| LabelFiles.SaveLabels | metatensor-core/src/io/labels.rs:71-96 | the loops write the file of the labels |
| LabelFiles.CheckTypeDescriptor | metatensor-core/src/io/labels.rs:106-144 | accepts exactly 32-bit integers in one byte order |
| LabelFiles.LoadLabels | metatensor-core/src/io/labels.rs:46-64 | reading step by step gives what the bytes stand for |
| LabelFiles.ParsedTypesHaveFields | metatensor-core/src/io/labels.rs:106-144 | the parser never returns a compound type without fields, so a byte order is always found |
| LabelFiles.AbortsOnlyInHeader | metatensor-core/src/io/labels.rs:46-144 | loading labels aborts exactly where reading their header does: a byte order is always found behind it |
| LabelFiles.LoadedLabelsAreStorable | metatensor-core/src/io/labels.rs:46-96 | labels that were loaded, from whatever bytes, meet the demands of saving |
| LabelFiles.LabelsAreReadExactly | metatensor-core/src/io/labels.rs:46-64 | accepted exactly: one axis, not in Fortran order, fields that are all `<i4` or all `>i4` with valid names, four bytes per value, entries that differ |
| LabelFiles.LabelIsRead | metatensor-core/src/io/labels.rs:46-64 | value k of entry i is the integer in its own four bytes, lowest first for `<i4` and highest first for `>i4`, under the name of field k |
| LabelFiles.WrittenLabelsAre | metatensor-core/src/io/labels.rs:71-96 | the header that is written: one field per name, in the byte order of the machine |
| LabelFiles.LabelsAreReadBack | metatensor-core/src/io/labels.rs:46-96 | labels are read back from their file, in both byte orders |
| DataFiles.WriteData | metatensor-core/src/io/block.rs:203-223 | the file of an array |
| DataFiles.ReadData | metatensor-core/src/io/block.rs:132-161 | reading step by step gives what the bytes stand for, with the same errors |
| DataFiles.FilledWithData | metatensor-core/src/io/block.rs:132-223 | row-major data determines the array |
| DataFiles.ArrayIsReadExactly | metatensor-core/src/io/block.rs:132-161 | accepted exactly: not in Fortran order, `<f8` or `>f8`, eight bytes per cell |
| DataFiles.CellIsRead | metatensor-core/src/io/block.rs:132-161 | every cell holds the number in the eight bytes at its row-major position, lowest first for `<f8` and highest first for `>f8` |
| DataFiles.ArrayIsRefused | metatensor-core/src/io/block.rs:132-161 | an input error exactly if only bytes at the end are missing; all other files are refused as wrong |
| DataFiles.WrittenArrayIs | metatensor-core/src/io/block.rs:203-223 | the header that is written: the shape, in the byte order of the machine |
| DataFiles.ArrayIsReadBack | metatensor-core/src/io/block.rs:132-223 | arrays are read back bit by bit, in both byte orders |
| ArchivePaths.GradientPathNamesParameter | metatensor-core/src/io/block.rs:109-115 | every path of a gradient names its parameter, if that has no slash |
| ArchivePaths.SamplesShowGradient | metatensor-core/src/io/block.rs:109-115 | the samples file of a gradient is found by the search for gradients |
| BlockWriting.WriteSingleBlock | metatensor-core/src/io/block.rs:163-200 | succeeds exactly if all headers fit; then all files are there, none is written twice below an unused prefix, and files elsewhere stay |
| BlockWriting.WriteGradients | metatensor-core/src/io/block.rs:194-197 | the recursive loop over the gradients |
| BlockWriting.WriteComponents | metatensor-core/src/io/block.rs:182-186 | one file per component |
| BlockWriting.StoredUnder | metatensor-core/src/io/block.rs:163-200 | whether a block is stored depends on the files below its prefix only |
| BlockWriting.OtherGradientIsSame | metatensor-core/src/io/block.rs:194-197 | writing one gradient does not touch the files of another |
| BlockReading.FindGradients | metatensor-core/src/io/block.rs:107-115 | the parameters that the paths show |
| BlockReading.ReadSingleBlock | metatensor-core/src/io/block.rs:73-129 | reads exactly the blocks that the files describe, as valid blocks |
| BlockReading.ReadGradients | metatensor-core/src/io/block.rs:117-126 | the loop over the gradients, which ends because prefixes grow |
| BlockReading.OwnIsValid | metatensor-core/src/io/block.rs:82-105 | whatever the files hold, a block that is read meets the block invariant |
| BlockReading.ReadBlockIsValid | metatensor-core/src/io/block.rs:73-129 | so does the whole block with its nested gradients |
| BlockReading.ParametersAreFound | metatensor-core/src/io/block.rs:107-115 | the gradients that are found are exactly the ones that were written |
| BlockReading.StoredBlockIsRead | metatensor-core/src/io/block.rs:73-200 | a block with nested gradients is read back as it was |
| TensorFiles.Save | metatensor-core/src/io/tensor.rs:105-124 | the archive is loaded back as the tensor map exactly if no parameter has a slash; then no path is written twice |
| TensorFiles.Load | metatensor-core/src/io/tensor.rs:77-97 | loads exactly the tensor maps that the files describe, which are valid |
| TensorFiles.ReadTensorIsValid | metatensor-core/src/io/tensor.rs:77-97 | whatever the files hold, a tensor map that is loaded is valid |
| ArchiveContents.BlockIsReadExactly | metatensor-core/src/io/block.rs:73-129 | a block is read exactly if the files below its prefix, named one by one, hold its array and labels, and the gradients that samples files show are those of the block, recursively |
| ArchiveContents.TensorIsReadExactly | metatensor-core/src/io/tensor.rs:77-97 | a tensor map is loaded exactly if `keys.npy` holds its keys, `blocks/i/` its blocks, and these have the same structure |
| TensorFiles.BlocksAreApart | metatensor-core/src/io/tensor.rs:117-119 | no path is below the prefixes of two blocks |
| TensorFiles.ReadParametersAreSlashFree | metatensor-core/src/io/block.rs:109-115 | parameters that are read never have a slash |
| TensorFiles.RoundTripExactly | metatensor-core/src/io/tensor.rs:77-124 | a saved tensor map is loaded back if and only if no parameter at any depth has a slash |
| LoadedTensors.ReadTensorIsSavable | metatensor-core/src/io/tensor.rs:77-124 | a tensor map that was loaded, from whatever files, meets the demands of saving |
| LoadedTensors.LoadedTensorIsLoadedAgain | metatensor-core/src/io/tensor.rs:77-124 | saving it and loading it again gives the same tensor map |
| RowMajor.LinearUnravel | metatensor-core/include/metatensor.hpp:143-161 | indices in range have distinct positions below the product |
| RowMajor.LinearStart | metatensor-core/include/metatensor.hpp:143-161 | the index of zeros is at the start |
| RowMajor.LinearStep | metatensor-core/include/metatensor.hpp:143-161 | a step along an axis passes over all positions of the axes behind it |
| RowMajor.UnravelLinear | metatensor-core/include/metatensor.hpp:143-161 | every position below the product is that of an index in range |
| IndexOrders.ProductOf | metatensor-core/include/metatensor.hpp:121-127 | the product of all sizes |
| IndexOrders.CartesianIndex | metatensor-core/include/metatensor.hpp:131-139 | the index of a position with the first axis fastest; nothing of the position is left over |
| IndexOrders.LinearIndex | metatensor-core/include/metatensor.hpp:143-163 | the position of an index with the last axis fastest |
| IndexOrders.FirstFastestInRange | metatensor-core/include/metatensor.hpp:131-139 | positions have indices in range, and these have their positions back |
| IndexOrders.LinearFirstInRange | metatensor-core/include/metatensor.hpp:131-139 | the inverse of `cartesian_index` on indices in range |
| IndexOrders.OrdersAgreeExactly | metatensor-core/include/metatensor.hpp:131-163 | decoding and encoding agree exactly if at most one axis has a size other than 1, or there is nothing |
| AxisSwaps.SwapKeepsProduct | metatensor-core/include/metatensor.hpp:709-712 | exchanging two sizes keeps the number of values |
| AxisSwaps.SwapPermutesData | metatensor-core/include/metatensor.hpp:714-719 | no value is lost and none is doubled |
| AxisSwaps.SwapIsRightExactly | metatensor-core/include/metatensor.hpp:709-723 | the axes are exchanged for all data exactly if at most one has a size other than 1, or there is no data |
| Odometer.NextIndex | metatensor-core/include/metatensor.hpp:782-788 | one step of the component loop, with its carries |
| Odometer.NextKeeps | metatensor-core/include/metatensor.hpp:782-788 | a step moves the first component only if it is the only one |
| Odometer.EndsExactly | metatensor-core/include/metatensor.hpp:768-793 | the loop ends exactly for one component axis, or an empty first one |
| CellMoves.FilledUpdate | metatensor-core/include/metatensor.hpp:780 | writing at the position of an index changes the value at this index only |
| SimpleDataArrays.WalkEndsExactly | metatensor-core/include/metatensor.hpp:763-793 | when the loop ends and its first lookup is inside the array |
| SimpleDataArrays.SimpleDataArray.New | metatensor-core/include/metatensor.hpp:668-675 | the size of the data must fit the shape |
| SimpleDataArrays.SimpleDataArray.constructor | metatensor-core/include/metatensor.hpp:662-663 | filled with zeros, it is what `create` must return |
| SimpleDataArrays.SimpleDataArray.Reshape | metatensor-core/include/metatensor.hpp:702-707 | the contract of reshape, with the same failures |
| SimpleDataArrays.SimpleDataArray.SwapAxes | metatensor-core/include/metatensor.hpp:709-723 | the exact new data; the contract of swapping axes when at most one axis has a size other than 1 |
| SimpleDataArrays.SimpleDataArray.CopyComponents | metatensor-core/include/metatensor.hpp:763-793 | the component loop copies the whole row of one sample, and ends |
| SimpleDataArrays.SimpleDataArray.CopyProperties | metatensor-core/include/metatensor.hpp:774-780 | the property loop copies one component of one sample, and no other cell |
| SimpleDataArrays.SimpleDataArray.MoveSamplesFrom | metatensor-core/include/metatensor.hpp:733-796 | the contract of `move_samples_from`, for repeated output rows too |

## Left out

- `SimpleDataArrays.SimpleDataArray.MoveSamplesFrom`: the input is another array, as the interface promises, and the component loop ends; other calls read outside the array or never return.
- `SimpleDataArrays.SimpleDataArray.constructor`: `copy` and `origin` of the C++ array are not modelled.
- `BlockWriting.WriteSingleBlock`: on an error, which files were already written is not stated, except that files elsewhere stay.
- `BlockReading.ReadSingleBlock`: which of several errors is returned is not stated when a gradient can not be read, because the order of the gradients depends on hashing.
- `TensorFiles.Load`: which of several errors is returned is not stated.
- `TensorFiles.Save`: with a slash in a parameter, the paths that are written are not described further.
- `KeysToProperties.KeysToProperties`: names that clash, row numbers beyond 32 bits, and gradients in one group with different numbers of component entries are not allowed; the code aborts for the first two, and hands the last to `move_samples_from`, whose contract excludes it. Different component values are allowed, although debug builds abort for them.
- `KeysToSamples.KeysToSamples`: the same demands on callers.
- Blocks that are only read, by merging, cloning or saving, are values; blocks that are built or changed are objects of the class.
- `PropertySteps.ValuesAgree`: both ways are assumed to succeed; that they do on the same inputs is proved for samples only.
- `Tensors.NewTensorMap`: that all blocks have the same data origin is not checked.
- `TensorComponents.CloneBlock`: the original is a value, so that the copy shares no array with it holds by construction.
- `BlockReading.ReadGradients`: which error is returned is not stated, for the same reason as in `ReadSingleBlock`.
- `TensorBlocks.TensorBlock.AddGradient`: parameters with a NUL character, for which the code aborts, are not allowed; the data origin is not checked.
- `IndexedLabels.Labels.New`: values that do not fill whole entries, for which the code aborts, are not allowed.
- `IndexedLabels.Labels.Union`: labels without dimensions, for which the code divides by zero, are not allowed; the same for intersection and selection.
- `LabelFiles.SaveLabels`: labels without dimensions, for which the code divides by zero, are not allowed.
- The C interface, raw pointers, reference counts, user data and unwinding.
- The bytes of ZIP archives, the file system, and the functions that guess what a file contains; an archive is a map from paths to bytes.
- The callback that creates arrays when loading always succeeds, and so do the other functions of `mts_array_t`.
- The data type, the device and the origin of arrays.
- Hash maps are maps, so the order of gradients is free; insertion-ordered and ordered sets are sequences; sorting is a function.
- Locks and concurrent initialization of the index of labels.
- Memory limits, and overflow of the sizes of allocations.
- Label values are integers; that they fit 32 bits is demanded where they are written to files, or made from row numbers.
- The Python, Julia and Torch interfaces, printing, and error messages.
