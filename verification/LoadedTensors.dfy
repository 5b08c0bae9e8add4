/** A tensor map that was loaded can be saved, and is loaded again as it was. */
module LoadedTensors {
  import opened Wrappers
  import opened LabelSets
  import opened Blocks
  import opened Tensors
  import opened Bytes
  import opened LabelFiles
  import opened ArchivePaths
  import opened BlockWriting
  import opened BlockReading
  import opened TensorFiles

  lemma LabelsAtAreStorable(files: Files, path: string)
    requires LabelsAt(files, path).Ok?
    ensures Storable(LabelsAt(files, path).value)
  {
    hide ReadLabels, Storable;
    LoadedLabelsAreStorable(files[path]);
  }

  lemma {:induction false} ComponentsAtAreStorable(files: Files, prefix: string, n: nat)
    requires ComponentsAt(files, prefix, n).Ok?
    ensures forall i :: 0 <= i < n ==> Storable(ComponentsAt(files, prefix, n).value[i])
  {
    hide LabelsAt, ComponentPath, Storable;
    if n > 0 {
      ComponentsAtAreStorable(files, prefix, n - 1);
      LabelsAtAreStorable(files, ComponentPath(prefix, n - 1));
    }
  }

  lemma OwnIsSavable(files: Files, prefix: string, properties: Option<Labels>)
    requires ReadOwn(files, prefix, properties).Ok? && (properties.Some? ==> Storable(properties.value))
    ensures Savable(ReadOwn(files, prefix, properties).value)
  {
    hide LabelsAt, ArrayAt, ComponentPath, ComponentsAt, Storable, WellLabelled, SamplesPath, PropertiesPath;
    LabelsAtAreStorable(files, SamplesPath(prefix));
    ComponentsAtAreStorable(files, prefix, |ArrayAt(files, ValuesPath(prefix)).value.shape| - 2);
    if properties.None? {
      LabelsAtAreStorable(files, PropertiesPath(prefix));
    }
  }

  lemma StorableProperties(b: Block)
    requires Savable(b)
    ensures Storable(b.properties)
  {}

  lemma {:induction false} ReadBlockIsSavable(files: Files, prefix: string, properties: Option<Labels>)
    requires ReadBlock(files, prefix, properties).Some? && (properties.Some? ==> Storable(properties.value))
    ensures Savable(ReadBlock(files, prefix, properties).value)
    decreases Room(files, prefix)
  {
    PartsOfReadBlock(files, prefix, properties);
    OwnIsSavable(files, prefix, properties);
    hide ReadOwn, GradientPrefix, Room, GradientFits, Storable, ReadBlock;
    var b, own := ReadBlock(files, prefix, properties).value, ReadOwn(files, prefix, properties).value;
    StorableProperties(own);
    forall p | p in b.gradients ensures Savable(b.gradients[p]) {
      LessRoom(files, prefix, p);
      ReadBlockIsSavable(files, GradientPrefix(prefix, p), Some(own.properties));
    }
  }

  lemma {:induction false} ReadBlocksAreSavable(files: Files, n: nat)
    requires ReadBlocks(files, n).Some?
    ensures forall i :: 0 <= i < |ReadBlocks(files, n).value| ==> Savable(ReadBlocks(files, n).value[i])
  {
    hide ReadBlock, BlockPrefix, Savable;
    if n > 0 {
      ReadBlocksAreSavable(files, n - 1);
      ReadBlockIsSavable(files, BlockPrefix(n - 1), None);
    }
  }

  lemma ReadTensorIsSavable(files: Files)
    requires ReadTensor(files).Some?
    ensures TensorSavable(ReadTensor(files).value)
  {
    hide LabelsAt, ReadBlocks, AllSameStructure, Savable, Storable;
    LabelsAtAreStorable(files, KEYS_PATH);
    ReadBlocksAreSavable(files, |LabelsAt(files, KEYS_PATH).value.rows|);
  }

  /** What was loaded, from whatever files, meets the demands of saving; and the
      archive that saving it writes is loaded as the same tensor map. */
  lemma LoadedTensorIsLoadedAgain(files: Files, now: Contents, e: Endianness)
    requires ReadTensor(files).Some?
    ensures var t := ReadTensor(files).value;
      && ValidTensor(t) && TensorSavable(t) && TensorIsSlashFree(t)
      && (Saving(now, t, |t.blocks|, e) ==> ReadTensor(now.files) == Some(t))
  {
    hide ReadTensor, ValidTensor, TensorSavable, TensorIsSlashFree, Saving;
    ReadTensorIsValid(files);
    ReadTensorIsSavable(files);
    ReadTensorIsSlashFree(files);
    var t := ReadTensor(files).value;
    if Saving(now, t, |t.blocks|, e) {
      SavedTensorIsRead(now, t, e);
    }
  }
}
