/** Saving tensor maps to an archive and loading them back. */
module TensorFiles {
  import opened Wrappers
  import opened LabelSets
  import opened Blocks
  import opened Tensors
  import opened Bytes
  import opened NpySyntax
  import opened NpyHeaders
  import opened NpyRoundTrip
  import opened LabelFiles
  import opened ArchivePaths
  import opened BlockWriting
  import opened BlockReading

  const KEYS_PATH := "keys.npy"
  const BLOCKS_PREFIX := "blocks/"

  function BlockPrefix(i: nat): string {
    BLOCKS_PREFIX + (Decimal(i) + "/")
  }

  lemma {:induction false} DigitsAreSlashFree(digits: string)
    requires AllDigits(digits)
    ensures SlashFree(digits)
  {}

  /** A path belongs to one block only. */
  lemma BlockPathNamesBlock(i: nat, path: string)
    requires BlockPrefix(i) <= path
    ensures |path| >= |BLOCKS_PREFIX| && Segment(path[|BLOCKS_PREFIX|..]) == Decimal(i) && path[0] == 'b'
  {
    DecimalIsRight(i);
    DigitsAreSlashFree(Decimal(i));
    hide Decimal;
    Behind(BLOCKS_PREFIX, Decimal(i) + "/", path);
    var rest := path[|BLOCKS_PREFIX|..];
    var after := rest[|Decimal(i)| + 1..];
    assert rest == Decimal(i) + "/" + after;
    assert Decimal(i) + "/" + after == Decimal(i) + ("/" + after);
    SegmentBeforeSlash(Decimal(i), after);
  }

  /** No path is below the prefixes of two blocks. */
  lemma BlocksAreApart(i: nat, j: nat, path: string)
    requires BlockPrefix(i) <= path && BlockPrefix(j) <= path
    ensures i == j
  {
    BlockPathNamesBlock(i, path);
    BlockPathNamesBlock(j, path);
    DecimalIsRight(i);
    DecimalIsRight(j);
  }

  ghost predicate TensorSavable(t: TensorMap) {
    Storable(t.keys) && forall i :: 0 <= i < |t.blocks| ==> Savable(t.blocks[i])
  }

  ghost predicate TensorFits(t: TensorMap, e: Endianness) {
    LabelsFile(t.keys, e).Ok? && forall i :: 0 <= i < |t.blocks| ==> FilesFit(t.blocks[i], true, e)
  }

  ghost predicate TensorIsSlashFree(t: TensorMap) {
    forall i :: 0 <= i < |t.blocks| ==> ParametersAreSlashFree(t.blocks[i])
  }

  ghost predicate BlocksStored(files: Files, blocks: seq<Block>, n: nat, e: Endianness) {
    forall i: nat :: i < n && i < |blocks| ==> Stored(files, BlockPrefix(i), blocks[i], true, e)
  }

  /** The paths that are in use after the first `n` blocks. */
  ghost predicate OnlyBlocksBelow(files: Files, n: nat) {
    forall path, i: nat :: path in files && i >= n ==> !(BlockPrefix(i) <= path)
  }

  /** The keys and the first `n` blocks are saved. */
  ghost predicate Saving(now: Contents, t: TensorMap, n: nat, e: Endianness) {
    TensorIsSlashFree(t) ==>
      && HasFile(now.files, KEYS_PATH, LabelsFile(t.keys, e))
      && BlocksStored(now.files, t.blocks, n, e)
      && OnlyBlocksBelow(now.files, n)
      && NoRepeats(now)
  }

  lemma KeysAreSaved(t: TensorMap, e: Endianness)
    requires LabelsFile(t.keys, e).Ok?
    ensures Saving(WithFile(EMPTY_ARCHIVE, KEYS_PATH, LabelsFile(t.keys, e).value), t, 0, e)
  {
    hide LabelsFile;
    NewFileKeepsNoRepeats(EMPTY_ARCHIVE, KEYS_PATH, LabelsFile(t.keys, e).value);
    var now := WithFile(EMPTY_ARCHIVE, KEYS_PATH, LabelsFile(t.keys, e).value);
    forall path, i: nat | path in now.files ensures !(BlockPrefix(i) <= path) {
      if BlockPrefix(i) <= path {
        BlockPathNamesBlock(i, path);
      }
    }
  }

  /** Writing one block does not touch the files of another. */
  lemma OtherBlockIsSame(before: Files, after: Files, i: nat, j: nat)
    requires SameElsewhere(before, after, BlockPrefix(j)) && i != j
    ensures SameUnder(before, after, BlockPrefix(i))
  {
    forall path | BlockPrefix(i) <= path
      ensures (path in after <==> path in before) && (path in before ==> after[path] == before[path])
    {
      if BlockPrefix(j) <= path {
        BlocksAreApart(i, j, path);
      }
    }
  }

  lemma KeysAreElsewhere(before: Files, after: Files, n: nat, file: Result<seq<byte>>)
    requires SameElsewhere(before, after, BlockPrefix(n)) && HasFile(before, KEYS_PATH, file)
    ensures HasFile(after, KEYS_PATH, file)
  {
    if BlockPrefix(n) <= KEYS_PATH {
      BlockPathNamesBlock(n, KEYS_PATH);
    }
  }

  lemma MoreBlocksBelow(before: Files, after: Files, n: nat)
    requires SameElsewhere(before, after, BlockPrefix(n)) && OnlyBlocksBelow(before, n)
    ensures NothingUnder(before, BlockPrefix(n)) && OnlyBlocksBelow(after, n + 1)
  {
    forall path, i: nat | path in after && i >= n + 1 ensures !(BlockPrefix(i) <= path) {
      if BlockPrefix(i) <= path && BlockPrefix(n) <= path {
        BlocksAreApart(i, n, path);
      }
    }
  }

  lemma OneMoreBlockStored(before: Files, after: Files, blocks: seq<Block>, n: nat, e: Endianness)
    requires n < |blocks| && BlocksStored(before, blocks, n, e) && SameElsewhere(before, after, BlockPrefix(n))
    requires Stored(after, BlockPrefix(n), blocks[n], true, e)
    ensures BlocksStored(after, blocks, n + 1, e)
  {
    hide Stored, BlockPrefix, SameElsewhere, SameUnder;
    forall i: nat | i < n + 1 && i < |blocks| ensures Stored(after, BlockPrefix(i), blocks[i], true, e) {
      if i != n {
        OtherBlockIsSame(before, after, i, n);
        StoredUnder(before, after, BlockPrefix(i), blocks[i], true, e);
      }
    }
  }

  lemma OneMoreBlockSaved(before: Contents, now: Contents, t: TensorMap, n: nat, e: Endianness)
    requires Saving(before, t, n, e) && n < |t.blocks|
    requires BlockIsWritten(before, now, BlockPrefix(n), t.blocks[n], true, e)
    ensures Saving(now, t, n + 1, e)
  {
    hide Stored, BlockPrefix, NoRepeats, LabelsFile, SameElsewhere, NothingUnder, BlocksStored, OnlyBlocksBelow, HasFile;
    if TensorIsSlashFree(t) {
      MoreBlocksBelow(before.files, now.files, n);
      KeysAreElsewhere(before.files, now.files, n, LabelsFile(t.keys, e));
      OneMoreBlockStored(before.files, now.files, t.blocks, n, e);
    }
  }

  /** The blocks in an archive, if all of them can be read. */
  ghost function ReadBlocks(files: Files, n: nat): Option<seq<Block>> {
    if n == 0 then Some([])
    else
      match (ReadBlocks(files, n - 1), ReadBlock(files, BlockPrefix(n - 1), None))
      case (Some(before), Some(last)) => Some(before + [last])
      case _ => None
  }

  ghost predicate AllSameStructure(blocks: seq<Block>) {
    forall i :: 0 <= i < |blocks| ==> SameStructure(blocks[0], blocks[i])
  }

  /** The tensor map in an archive, if all of it can be read. */
  ghost function ReadTensor(files: Files): Option<TensorMap> {
    match LabelsAt(files, KEYS_PATH)
    case Err(_) => None
    case Ok(keys) =>
      match ReadBlocks(files, |keys.rows|)
      case None => None
      case Some(blocks) => if AllSameStructure(blocks) then Some(TensorMap(keys, blocks)) else None
  }

  lemma {:induction false} StoredBlocksAreRead(files: Files, blocks: seq<Block>, n: nat, e: Endianness)
    requires n <= |blocks| && BlocksStored(files, blocks, |blocks|, e)
    requires forall i :: 0 <= i < |blocks| ==> ValidBlock(blocks[i]) && Savable(blocks[i]) && ParametersAreSlashFree(blocks[i])
    ensures ReadBlocks(files, n) == Some(blocks[..n])
  {
    hide Stored, BlockPrefix, ValidBlock, Savable, ParametersAreSlashFree, ReadBlock;
    if n > 0 {
      StoredBlocksAreRead(files, blocks, n - 1, e);
      StoredBlockIsRead(files, BlockPrefix(n - 1), blocks[n - 1], true, None, e);
      assert blocks[..n] == blocks[..n - 1] + [blocks[n - 1]];
    }
  }

  /** A saved tensor map is loaded again. */
  lemma SavedTensorIsRead(now: Contents, t: TensorMap, e: Endianness)
    requires Saving(now, t, |t.blocks|, e) && ValidTensor(t) && TensorSavable(t) && TensorIsSlashFree(t)
    ensures ReadTensor(now.files) == Some(t)
  {
    hide ValidBlock, Savable, ParametersAreSlashFree, Stored, LabelsFile, SameStructure, Storable, OnlyBlocksBelow, NoRepeats, HasFile, LabelsAt;
    LabelsAreRead(now.files, KEYS_PATH, t.keys, e);
    StoredBlocksAreRead(now.files, t.blocks, |t.blocks|, e);
    assert t.blocks[..|t.blocks|] == t.blocks;
  }

  /** Parameters that are read never have a slash. */
  lemma {:induction false} ReadParametersAreSlashFree(files: Files, prefix: string, properties: Option<Labels>)
    requires ReadBlock(files, prefix, properties).Some?
    ensures ParametersAreSlashFree(ReadBlock(files, prefix, properties).value)
    decreases Room(files, prefix)
  {
    var b := ReadBlock(files, prefix, properties).value;
    var own := ReadOwn(files, prefix, properties).value;
    hide ReadOwn, GradientPrefix, Room, GradientFits;
    forall p | p in b.gradients ensures SlashFree(p) && ParametersAreSlashFree(b.gradients[p]) {
      FoundParameterIsSlashFree(files, prefix, p);
      LessRoom(files, prefix, p);
      ReadParametersAreSlashFree(files, GradientPrefix(prefix, p), Some(own.properties));
    }
  }

  lemma FoundParameterIsSlashFree(files: Files, prefix: string, p: string)
    requires p in ParametersIn(files, prefix)
    ensures SlashFree(p)
  {
    var path :| path in files && ShowsGradient(path, prefix) && p == ParameterOf(path, prefix);
    SegmentIsSlashFree(path[|GradientsPrefix(prefix)|..]);
  }

  lemma {:induction false} ReadBlocksAreSlashFree(files: Files, n: nat)
    requires ReadBlocks(files, n).Some?
    ensures forall i :: 0 <= i < |ReadBlocks(files, n).value| ==> ParametersAreSlashFree(ReadBlocks(files, n).value[i])
  {
    hide ReadBlock, BlockPrefix, ParametersAreSlashFree;
    if n > 0 {
      ReadBlocksAreSlashFree(files, n - 1);
      ReadParametersAreSlashFree(files, BlockPrefix(n - 1), None);
    }
  }

  lemma ReadTensorIsSlashFree(files: Files)
    requires ReadTensor(files).Some?
    ensures TensorIsSlashFree(ReadTensor(files).value)
  {
    hide ReadBlocks, LabelsAt, AllSameStructure;
    ReadBlocksAreSlashFree(files, |LabelsAt(files, KEYS_PATH).value.rows|);
  }

  /** The round trip works exactly when no gradient parameter has a slash. */
  lemma RoundTripExactly(now: Contents, t: TensorMap, e: Endianness)
    requires Saving(now, t, |t.blocks|, e) && ValidTensor(t) && TensorSavable(t)
    ensures ReadTensor(now.files) == Some(t) <==> TensorIsSlashFree(t)
  {
    hide Saving, ReadTensor, TensorIsSlashFree, ValidTensor, TensorSavable;
    if TensorIsSlashFree(t) {
      SavedTensorIsRead(now, t, e);
    }
    if ReadTensor(now.files) == Some(t) {
      ReadTensorIsSlashFree(now.files);
    }
  }

  /** Save a tensor map. It can be loaded from the archive exactly when no
      gradient parameter has a slash; then no path is written twice. */
  method Save(t: TensorMap, native: Endianness) returns (r: Result<Archive>)
    requires ValidTensor(t) && TensorSavable(t)
    ensures r.Ok? <==> TensorFits(t, native)
    ensures r.Err? ==> r.error == Serialization
    ensures r.Ok? ==> fresh(r.value) && (ReadTensor(r.value.contents.files) == Some(t) <==> TensorIsSlashFree(t))
    ensures r.Ok? && TensorIsSlashFree(t) ==> NoRepeats(r.value.contents)
  {
    var archive := new Archive();
    hide ValidTensor, LabelsFile, FilesFit, Storable, Savable, NoRepeats, Saving, WithFile;
    var keys := AddLabels(archive, KEYS_PATH, t.keys, native);
    if keys.Err? {
      return Err(keys.error);
    }
    KeysAreSaved(t, native);
    for i := 0 to |t.blocks|
      invariant fresh(archive) && Saving(archive.contents, t, i, native)
      invariant forall k :: 0 <= k < i ==> FilesFit(t.blocks[k], true, native)
    {
      hide BlockIsWritten, TensorIsSlashFree, TensorFits;
      ghost var before := archive.contents;
      var block := WriteSingleBlock(archive, BlockPrefix(i), true, t.blocks[i], native);
      if block.Err? {
        FitsAll(t, native, i);
        return Err(block.error);
      }
      OneMoreBlockSaved(before, archive.contents, t, i, native);
    }
    RoundTripExactly(archive.contents, t, native);
    SavedWithoutRepeats(archive.contents, t, |t.blocks|, native);
    return Ok(archive);
  }

  lemma FitsAll(t: TensorMap, e: Endianness, i: nat)
    requires i < |t.blocks|
    ensures TensorFits(t, e) ==> FilesFit(t.blocks[i], true, e)
  {}

  lemma SavedWithoutRepeats(now: Contents, t: TensorMap, n: nat, e: Endianness)
    requires Saving(now, t, n, e)
    ensures TensorIsSlashFree(t) ==> NoRepeats(now)
  {}

  lemma {:induction false} ReadBlocksFail(files: Files, i: nat, n: nat)
    requires i < n && ReadBlock(files, BlockPrefix(i), None).None?
    ensures ReadBlocks(files, n).None?
  {
    hide ReadBlock, BlockPrefix;
    if i < n - 1 {
      ReadBlocksFail(files, i, n - 1);
    }
  }

  /** Read the blocks one after the other. */
  method LoadBlocks(files: Files, n: nat) returns (r: Result<seq<Block>>)
    ensures r.Ok? <==> ReadBlocks(files, n).Some?
    ensures r.Ok? ==> r.value == ReadBlocks(files, n).value
  {
    hide ReadBlock, BlockPrefix;
    var blocks: seq<Block> := [];
    for i := 0 to n
      invariant ReadBlocks(files, i) == Some(blocks)
    {
      var block := ReadSingleBlock(files, BlockPrefix(i), None);
      if block.Err? {
        ReadBlocksFail(files, i, n);
        return Err(block.error);
      }
      blocks := blocks + [block.value.Value()];
    }
    return Ok(blocks);
  }

  lemma {:induction false} ReadBlocksLength(files: Files, n: nat)
    requires ReadBlocks(files, n).Some?
    ensures |ReadBlocks(files, n).value| == n
  {
    hide ReadBlock, BlockPrefix;
    if n > 0 {
      ReadBlocksLength(files, n - 1);
    }
  }

  lemma {:induction false} ReadBlocksAreValid(files: Files, n: nat)
    requires ReadBlocks(files, n).Some?
    ensures forall i :: 0 <= i < |ReadBlocks(files, n).value| ==> ValidBlock(ReadBlocks(files, n).value[i])
  {
    hide ReadBlock, BlockPrefix, ValidBlock;
    if n > 0 {
      ReadBlocksAreValid(files, n - 1);
      ReadBlockIsValid(files, BlockPrefix(n - 1), None);
    }
  }

  /** Whatever the files hold, a tensor map that is read is a valid one. */
  lemma ReadTensorIsValid(files: Files)
    requires ReadTensor(files).Some?
    ensures ValidTensor(ReadTensor(files).value)
  {
    hide LabelsAt, ReadBlocks, SameStructure, ValidBlock, ValidLabels;
    LabelsAreValid(files, KEYS_PATH);
    var n := |LabelsAt(files, KEYS_PATH).value.rows|;
    ReadBlocksAreValid(files, n);
    ReadBlocksLength(files, n);
  }

  /** Load a tensor map from an archive. */
  method Load(files: Files) returns (r: Result<TensorMap>)
    ensures r.Ok? <==> ReadTensor(files).Some?
    ensures r.Ok? ==> r.value == ReadTensor(files).value && ValidTensor(r.value)
  {
    hide LabelsAt, ReadBlocks, SameStructure, ValidTensor;
    var keys :- ReadLabelsFile(files, KEYS_PATH);
    var blocks :- LoadBlocks(files, |keys.rows|);
    ReadBlocksLength(files, |keys.rows|);
    r := NewTensorMap(keys, blocks);
    if r.Ok? {
      ReadTensorIsValid(files);
    }
  }
}
