/** Reading a block and its nested gradients from an archive, and the round
    trip: what was written is read back. */
module BlockReading {
  import opened Wrappers
  import opened Arrays
  import opened LabelSets
  import opened Blocks
  import opened Bytes
  import opened NpyParser
  import opened NpyHeaders
  import opened NpyRoundTrip
  import opened LabelFiles
  import opened DataFiles
  import opened ArchivePaths
  import opened BlockWriting
  import opened TensorBlocks

  function ArrayAt(files: Files, path: string): (r: Result<Array>)
    ensures r.Ok? ==> ValidArray(r.value)
  {
    if path in files then ReadArray(files[path]) else Err(Serialization)
  }

  ghost function LabelsAt(files: Files, path: string): Result<Labels> {
    if path in files then ReadLabels(files[path]) else Err(Serialization)
  }

  ghost function ComponentsAt(files: Files, prefix: string, n: nat): (r: Result<seq<Labels>>)
    ensures r.Ok? ==> |r.value| == n
  {
    if n == 0 then Ok([])
    else
      var before :- ComponentsAt(files, prefix, n - 1);
      var last :- LabelsAt(files, ComponentPath(prefix, n - 1));
      Ok(before + [last])
  }

  /** The parameters of the gradients that the paths show. */
  function ParametersIn(files: Files, prefix: string): set<string> {
    set path | path in files && ShowsGradient(path, prefix) :: ParameterOf(path, prefix)
  }

  ghost function Longest(paths: set<string>): nat {
    if paths == {} then 0
    else
      var path :| path in paths;
      var rest := Longest(paths - {path});
      if |path| > rest then |path| else rest
  }

  lemma {:induction false} LongestIsBound(paths: set<string>, path: string)
    requires path in paths
    ensures |path| <= Longest(paths)
    decreases paths
  {
    var first :| first in paths && Longest(paths) == if |first| > Longest(paths - {first}) then |first| else Longest(paths - {first});
    if path != first {
      LongestIsBound(paths - {first}, path);
    }
  }

  /** How much longer a prefix can get before there are no files behind it. */
  ghost function Room(files: Files, prefix: string): nat {
    if |prefix| > Longest(files.Keys) then 0 else Longest(files.Keys) + 1 - |prefix|
  }

  lemma LessRoom(files: Files, prefix: string, p: string)
    requires ValuesPath(prefix) in files
    ensures Room(files, GradientPrefix(prefix, p)) < Room(files, prefix)
  {
    LongestIsBound(files.Keys, ValuesPath(prefix));
  }

  /** The files of the block itself, as they are read. */
  ghost function ReadOwn(files: Files, prefix: string, properties: Option<Labels>): (r: Result<Block>)
    ensures r.Ok? ==> ValuesPath(prefix) in files && r.value.gradients == map[]
  {
    var data :- ArrayAt(files, ValuesPath(prefix));
    var samples :- LabelsAt(files, SamplesPath(prefix));
    if |data.shape| < 2 then Err(OutOfBounds)
    else
      var components :- ComponentsAt(files, prefix, |data.shape| - 2);
      var ownProperties :- if properties.Some? then Ok(properties.value) else LabelsAt(files, PropertiesPath(prefix));
      if WellLabelled(data, samples, components, ownProperties) then Ok(Block(data, samples, components, ownProperties, map[]))
      else Err(InvalidParameter)
  }

  /** The block in an archive, if all of it can be read. */
  ghost function ReadBlock(files: Files, prefix: string, properties: Option<Labels>): Option<Block>
    decreases Room(files, prefix)
  {
    match ReadOwn(files, prefix, properties)
    case Err(_) => None
    case Ok(own) =>
      var parameters := ParametersIn(files, prefix);
      if forall p | p in parameters :: (LessRoom(files, prefix, p); GradientReads(own, p, ReadBlock(files, GradientPrefix(prefix, p), Some(own.properties))))
      then
        Some(own.(gradients := map p | p in parameters ::
          (LessRoom(files, prefix, p); ReadBlock(files, GradientPrefix(prefix, p), Some(own.properties)).GetOr(own))))
      else None
  }

  /** The gradient can be read, and added to the block. */
  ghost predicate GradientReads(own: Block, p: string, gradient: Option<Block>) {
    ValidParameter(p) && gradient.Some? && GradientFits(own, gradient.value)
  }

  lemma {:induction false} ComponentsAreRead(files: Files, prefix: string, components: seq<Labels>, n: nat, e: Endianness)
    requires n <= |components| && ComponentsStored(files, prefix, components, |components|, e)
    requires forall i :: 0 <= i < |components| ==> Storable(components[i])
    ensures ComponentsAt(files, prefix, n) == Ok(components[..n])
  {
    hide LabelsFile, ReadLabels, ComponentPath, Storable;
    if n > 0 {
      ComponentsAreRead(files, prefix, components, n - 1, e);
      assert HasFile(files, ComponentPath(prefix, n - 1), LabelsFile(components[n - 1], e));
      LabelsAreReadBack(components[n - 1], e);
      assert components[..n] == components[..n - 1] + [components[n - 1]];
    }
  }

  lemma LabelsAreRead(files: Files, path: string, l: Labels, e: Endianness)
    requires HasFile(files, path, LabelsFile(l, e)) && Storable(l)
    ensures LabelsAt(files, path) == Ok(l)
  {
    hide LabelsFile, ReadLabels;
    LabelsAreReadBack(l, e);
  }

  lemma ArrayIsRead(files: Files, path: string, a: Array, e: Endianness)
    requires HasFile(files, path, DataFile(a, e)) && ValidArray(a) && a.shape != [] && FitsUsize(a.shape)
    ensures ArrayAt(files, path) == Ok(a)
  {
    hide DataFile, ReadArray;
    ArrayIsReadBack(a, e);
  }

  lemma ShapeFits(b: Block)
    requires ValidParts(b) && Savable(b)
    ensures b.values.shape != [] && FitsUsize(b.values.shape) && |b.values.shape| == |b.components| + 2
  {
    var shape := b.values.shape;
    assert shape == BlockShape(b.samples, b.components, b.properties);
    forall i | 0 <= i < |shape| ensures shape[i] <= USIZE_MAX {
      if 0 < i < |shape| - 1 {
        assert Storable(b.components[i - 1]);
      }
    }
  }

  ghost predicate PropertiesGiven(b: Block, values: bool, properties: Option<Labels>) {
    if values then properties == None else properties == Some(b.properties)
  }

  /** How the parts of a block are put together. */
  lemma OwnFromParts(files: Files, prefix: string, properties: Option<Labels>, b: Block)
    requires ArrayAt(files, ValuesPath(prefix)) == Ok(b.values) && LabelsAt(files, SamplesPath(prefix)) == Ok(b.samples)
    requires |b.values.shape| == |b.components| + 2 && ComponentsAt(files, prefix, |b.components|) == Ok(b.components)
    requires properties == Some(b.properties) || (properties == None && LabelsAt(files, PropertiesPath(prefix)) == Ok(b.properties))
    requires WellLabelled(b.values, b.samples, b.components, b.properties)
    ensures ReadOwn(files, prefix, properties) == Ok(b.(gradients := map[]))
  {
    hide ArrayAt, LabelsAt, ComponentsAt, ValuesPath, SamplesPath, PropertiesPath, WellLabelled;
  }

  lemma OwnIsRead(files: Files, prefix: string, b: Block, values: bool, properties: Option<Labels>, e: Endianness)
    requires OwnStored(files, prefix, b, values, e) && ValidParts(b) && Savable(b) && PropertiesGiven(b, values, properties)
    ensures ReadOwn(files, prefix, properties) == Ok(b.(gradients := map[]))
  {
    ShapeFits(b);
    ComponentFilesAreRead(files, prefix, b, values, e);
    hide DataFile, LabelsFile, ComponentsStored, HasFile, ValuesPath, SamplesPath, PropertiesPath, ArrayAt, LabelsAt, ComponentsAt, Storable, FitsUsize, WellLabelled, ReadOwn;
    ArrayIsRead(files, ValuesPath(prefix), b.values, e);
    LabelsAreRead(files, SamplesPath(prefix), b.samples, e);
    if values {
      LabelsAreRead(files, PropertiesPath(prefix), b.properties, e);
    }
    OwnFromParts(files, prefix, properties, b);
  }

  lemma ComponentFilesAreRead(files: Files, prefix: string, b: Block, values: bool, e: Endianness)
    requires OwnStored(files, prefix, b, values, e) && Savable(b)
    ensures ComponentsAt(files, prefix, |b.components|) == Ok(b.components)
  {
    hide DataFile, LabelsFile, ComponentsStored, HasFile, ValuesPath, SamplesPath, PropertiesPath, ComponentsAt, Storable;
    ComponentsAreRead(files, prefix, b.components, |b.components|, e);
    assert b.components[..|b.components|] == b.components;
  }

  /** The gradients that are found are the ones that were written. */
  lemma ParametersAreFound(files: Files, prefix: string, b: Block, values: bool, e: Endianness)
    requires Stored(files, prefix, b, values, e) && ParametersAreSlashFree(b)
    ensures ParametersIn(files, prefix) == b.gradients.Keys
  {
    hide OwnStored;
    forall p | p in b.gradients ensures p in ParametersIn(files, prefix) {
      SamplesShowGradient(prefix, p);
      SamplesAreThere(files, GradientPrefix(prefix, p), b.gradients[p], e);
    }
  }

  lemma SamplesAreThere(files: Files, prefix: string, b: Block, e: Endianness)
    requires Stored(files, prefix, b, false, e)
    ensures SamplesPath(prefix) in files
  {}

  /** How a block and its gradients are put together. */
  lemma BlockFromParts(files: Files, prefix: string, properties: Option<Labels>, own: Block, gradients: map<string, Block>)
    requires ReadOwn(files, prefix, properties) == Ok(own) && ParametersIn(files, prefix) == gradients.Keys
    requires forall p :: p in gradients ==>
      && ReadBlock(files, GradientPrefix(prefix, p), Some(own.properties)) == Some(gradients[p])
      && ValidParameter(p) && GradientFits(own, gradients[p])
    ensures ReadBlock(files, prefix, properties) == Some(own.(gradients := gradients))
  {
    hide ReadOwn, ParametersIn, GradientPrefix, GradientFits, ValidParameter;
    var read := ReadBlock(files, prefix, properties);
    assert read.Some?;
    assert read.value.gradients == gradients;
  }

  /** What was written for a block is read back as the same block, with all its
      nested gradients. */
  lemma {:induction false} StoredBlockIsRead(files: Files, prefix: string, b: Block, values: bool, properties: Option<Labels>, e: Endianness)
    requires Stored(files, prefix, b, values, e) && PropertiesGiven(b, values, properties)
    requires ValidBlock(b) && Savable(b) && ParametersAreSlashFree(b)
    ensures ReadBlock(files, prefix, properties) == Some(b)
    decreases b
  {
    OwnIsRead(files, prefix, b, values, properties, e);
    ParametersAreFound(files, prefix, b, values, e);
    hide OwnStored, ReadOwn, GradientFits, ValidParts, Storable, ReadBlock, ParametersIn;
    var own := b.(gradients := map[]);
    forall p | p in b.gradients
      ensures ReadBlock(files, GradientPrefix(prefix, p), Some(own.properties)) == Some(b.gradients[p])
      ensures ValidParameter(p) && GradientFits(own, b.gradients[p])
    {
      GradientOfBlock(b, p);
      StoredBlockIsRead(files, GradientPrefix(prefix, p), b.gradients[p], false, Some(own.properties), e);
      SameLabelsFit(b, own, b.gradients[p]);
    }
    BlockFromParts(files, prefix, properties, own, b.gradients);
  }

  lemma GradientOfBlock(b: Block, p: string)
    requires ValidBlock(b) && p in b.gradients
    ensures ValidParameter(p) && GradientFits(b, b.gradients[p]) && b.gradients[p].properties == b.properties
  {}

  method ReadLabelsFile(files: Files, path: string) returns (r: Result<Labels>)
    ensures r == LabelsAt(files, path)
  {
    hide ReadLabels;
    if path !in files {
      return Err(Serialization);
    }
    var reader := new Reader(files[path]);
    r := LoadLabels(reader);
  }

  method ReadArrayFile(files: Files, path: string) returns (r: Result<Array>)
    ensures r == ArrayAt(files, path)
  {
    hide ReadArray;
    if path !in files {
      return Err(Serialization);
    }
    var reader := new Reader(files[path]);
    r := ReadData(reader);
  }

  lemma {:induction false} ComponentsFail(files: Files, prefix: string, i: nat, n: nat)
    requires ComponentsAt(files, prefix, i).Err? && i <= n
    ensures ComponentsAt(files, prefix, n) == ComponentsAt(files, prefix, i)
  {
    if i < n {
      ComponentsFail(files, prefix, i, n - 1);
    }
  }

  method ReadComponents(files: Files, prefix: string, n: nat) returns (r: Result<seq<Labels>>)
    ensures r == ComponentsAt(files, prefix, n)
  {
    hide LabelsAt, ComponentPath;
    var components: seq<Labels> := [];
    for i := 0 to n
      invariant ComponentsAt(files, prefix, i) == Ok(components)
    {
      var component := ReadLabelsFile(files, ComponentPath(prefix, i));
      if component.Err? {
        ComponentsFail(files, prefix, i + 1, n);
        return Err(component.error);
      }
      components := components + [component.value];
    }
    return Ok(components);
  }

  /** Look for gradients in the names of all files. */
  method FindGradients(files: Files, prefix: string) returns (parameters: set<string>)
    ensures parameters == ParametersIn(files, prefix)
  {
    parameters := {};
    var todo := files.Keys;
    while todo != {}
      invariant todo <= files.Keys
      invariant parameters == set path | path in files && path !in todo && ShowsGradient(path, prefix) :: ParameterOf(path, prefix)
      decreases todo
    {
      hide ShowsGradient, Segment;
      var path :| path in todo;
      if GradientsPrefix(prefix) <= path && EndsWith(path, SAMPLES_END) {
        parameters := parameters + {ParameterOf(path, prefix)};
      }
      todo := todo - {path};
    }
  }

  lemma LabelsAreValid(files: Files, path: string)
    requires LabelsAt(files, path).Ok?
    ensures ValidLabels(LabelsAt(files, path).value)
  {
    hide ReadHeader, ColumnsOf, I32sIn;
  }

  lemma {:induction false} ComponentsAreValid(files: Files, prefix: string, n: nat)
    requires ComponentsAt(files, prefix, n).Ok?
    ensures forall i :: 0 <= i < n ==> ValidLabels(ComponentsAt(files, prefix, n).value[i])
  {
    hide LabelsAt, ComponentPath;
    if n > 0 {
      ComponentsAreValid(files, prefix, n - 1);
      LabelsAreValid(files, ComponentPath(prefix, n - 1));
    }
  }

  /** A block that is read meets the invariant of blocks. */
  lemma OwnIsValid(files: Files, prefix: string, properties: Option<Labels>)
    requires ReadOwn(files, prefix, properties).Ok? && (properties.Some? ==> ValidLabels(properties.value))
    ensures ValidBlock(ReadOwn(files, prefix, properties).value)
  {
    hide LabelsAt, ArrayAt, ComponentPath, ComponentsAt, ValidLabels, WellLabelled;
    LabelsAreValid(files, SamplesPath(prefix));
    var data := ArrayAt(files, ValuesPath(prefix)).value;
    ComponentsAreValid(files, prefix, |data.shape| - 2);
    if properties.None? {
      LabelsAreValid(files, PropertiesPath(prefix));
    }
  }

  /** Read the files of the block itself. */
  method ReadOwnBlock(files: Files, prefix: string, properties: Option<Labels>) returns (r: Result<TensorBlock>)
    requires properties.Some? ==> ValidLabels(properties.value)
    ensures r.Ok? <==> ReadOwn(files, prefix, properties).Ok?
    ensures r.Err? ==> r.error == ReadOwn(files, prefix, properties).error
    ensures r.Ok? ==> fresh(r.value.Repr) && r.value.Valid() && r.value.Model == ReadOwn(files, prefix, properties).value
  {
    hide LabelsAt, ArrayAt, ComponentPath, ComponentsAt, WellLabelled, ValidBlock, ValuesPath, SamplesPath, PropertiesPath, ValidLabels;
    var data :- ReadArrayFile(files, ValuesPath(prefix));
    var samples :- ReadLabelsFile(files, SamplesPath(prefix));
    if |data.shape| < 2 {
      return Err(OutOfBounds);
    }
    var components :- ReadComponents(files, prefix, |data.shape| - 2);
    var ownProperties: Labels;
    match properties {
      case Some(given) =>
        ownProperties := given;
      case None =>
        ownProperties :- ReadLabelsFile(files, PropertiesPath(prefix));
    }
    var block :- TensorBlock.New(data, samples, components, ownProperties);
    OwnIsValid(files, prefix, properties);
    return Ok(block);
  }

  ghost predicate GradientCanBeRead(files: Files, prefix: string, own: Block, p: string) {
    GradientReads(own, p, ReadBlock(files, GradientPrefix(prefix, p), Some(own.properties)))
  }

  /** Whether the block can be read, from its parts. */
  lemma ReadableExactly(files: Files, prefix: string, properties: Option<Labels>, own: Block)
    requires ReadOwn(files, prefix, properties) == Ok(own)
    ensures ReadBlock(files, prefix, properties).Some? <==>
      forall p :: p in ParametersIn(files, prefix) ==> GradientCanBeRead(files, prefix, own, p)
  {
    hide ReadOwn, ParametersIn, GradientPrefix, GradientReads;
    if forall p :: p in ParametersIn(files, prefix) ==> GradientCanBeRead(files, prefix, own, p) {
      assert ReadBlock(files, prefix, properties).Some?;
    }
    if ReadBlock(files, prefix, properties).Some? {
      forall p | p in ParametersIn(files, prefix) ensures GradientCanBeRead(files, prefix, own, p) {}
    }
  }

  /** The parts of a block that is read. */
  lemma PartsOfReadBlock(files: Files, prefix: string, properties: Option<Labels>)
    requires ReadBlock(files, prefix, properties).Some?
    ensures ReadOwn(files, prefix, properties).Ok?
    ensures var b, own := ReadBlock(files, prefix, properties).value, ReadOwn(files, prefix, properties).value;
      && b.(gradients := map[]) == own && b.properties == own.properties && ValuesPath(prefix) in files
      && forall p :: p in b.gradients ==>
           && ReadBlock(files, GradientPrefix(prefix, p), Some(own.properties)) == Some(b.gradients[p])
           && ValidParameter(p) && GradientFits(own, b.gradients[p])
  {
    hide ReadOwn, ParametersIn, GradientPrefix, GradientFits, ValidParameter;
    assert ReadOwn(files, prefix, properties).Ok?;
    var own := ReadOwn(files, prefix, properties).value;
    ReadableExactly(files, prefix, properties, own);
    ReadIsComplete(files, prefix, properties, own);
    assert forall p :: p in ParametersIn(files, prefix) ==> GradientCanBeRead(files, prefix, own, p);
  }

  /** Whatever the files hold, the block that is read meets the invariant at
      every depth. */
  lemma {:induction false} ReadBlockIsValid(files: Files, prefix: string, properties: Option<Labels>)
    requires ReadBlock(files, prefix, properties).Some? && (properties.Some? ==> ValidLabels(properties.value))
    ensures ValidBlock(ReadBlock(files, prefix, properties).value)
    decreases Room(files, prefix)
  {
    PartsOfReadBlock(files, prefix, properties);
    OwnIsValid(files, prefix, properties);
    var b, own := ReadBlock(files, prefix, properties).value, ReadOwn(files, prefix, properties).value;
    PropertiesAreValid(own);
    assert ValidParts(own);
    hide ReadOwn, GradientPrefix, Room, GradientFits, ValidLabels, ReadBlock, WellLabelled;
    forall p | p in b.gradients ensures ValidParameter(p) && ValidBlock(b.gradients[p]) && GradientFits(b, b.gradients[p]) {
      LessRoom(files, prefix, p);
      ReadBlockIsValid(files, GradientPrefix(prefix, p), Some(own.properties));
      SameLabelsFit(own, b, b.gradients[p]);
    }
  }

  /** The block has these labels. */
  ghost predicate HasLabelsOf(b: Block, own: Block) {
    b.samples == own.samples && b.components == own.components && b.properties == own.properties
  }

  /** The gradient with respect to `p` in the archive. */
  ghost function GradientIn(files: Files, prefix: string, own: Block, p: string): Block {
    ReadBlock(files, GradientPrefix(prefix, p), Some(own.properties)).GetOr(own)
  }

  /** Read one gradient and add it to the block. */
  method ReadGradient(files: Files, prefix: string, p: string, properties: Labels, block: TensorBlock, ghost own: Block) returns (r: Result<()>)
    requires block.Valid() && ValuesPath(prefix) in files && ValidLabels(properties) && properties == own.properties
    requires HasLabelsOf(block.Model, own) && p !in block.Model.gradients
    modifies block
    ensures block.Valid() && fresh(block.Repr - old(block.Repr))
    ensures r.Ok? <==> GradientCanBeRead(files, prefix, own, p)
    ensures r.Ok? ==> block.Model == old(block.Model).(gradients := old(block.Model.gradients)[p := GradientIn(files, prefix, own, p)])
    decreases Room(files, prefix), 0
  {
    hide ReadBlock, ValidBlock, GradientPrefix, ValidLabels, TensorBlock.Consistent, Room;
    if '\0' in p {
      return Err(OutOfBounds);
    }
    LessRoom(files, prefix, p);
    var gradient := ReadSingleBlock(files, GradientPrefix(prefix, p), Some(properties));
    if gradient.Err? {
      return Err(gradient.error);
    }
    r := block.AddGradient(p, gradient.value);
  }

  /** The block with some of the gradients from the archive. */
  ghost function WithRead(files: Files, prefix: string, own: Block, done: set<string>): Block {
    own.(gradients := map p | p in done :: GradientIn(files, prefix, own, p))
  }

  lemma OneMoreRead(files: Files, prefix: string, own: Block, done: set<string>, p: string)
    requires p !in done
    ensures HasLabelsOf(WithRead(files, prefix, own, done), own) && p !in WithRead(files, prefix, own, done).gradients
    ensures var before := WithRead(files, prefix, own, done);
      WithRead(files, prefix, own, done + {p}) == before.(gradients := before.gradients[p := GradientIn(files, prefix, own, p)])
  {
    hide GradientIn;
    var before := WithRead(files, prefix, own, done);
    assert WithRead(files, prefix, own, done + {p}).gradients == before.gradients[p := GradientIn(files, prefix, own, p)];
  }

  lemma NothingRead(files: Files, prefix: string, own: Block)
    requires own.gradients == map[]
    ensures WithRead(files, prefix, own, {}) == own
  {
    assert WithRead(files, prefix, own, {}).gradients == map[];
  }

  /** Read the gradients one by one. */
  method ReadGradients(files: Files, prefix: string, parameters: set<string>, properties: Labels, block: TensorBlock, ghost own: Block) returns (r: Result<()>)
    requires block.Valid() && ValuesPath(prefix) in files && ValidLabels(properties) && properties == own.properties
    requires block.Model == own && own.gradients == map[]
    modifies block
    ensures block.Valid() && fresh(block.Repr - old(block.Repr))
    ensures r.Ok? <==> forall p :: p in parameters ==> GradientCanBeRead(files, prefix, own, p)
    ensures r.Ok? ==> block.Model == WithRead(files, prefix, own, parameters)
    decreases Room(files, prefix), 1
  {
    hide ReadBlock, GradientPrefix, ValuesPath, ValidLabels, TensorBlock.Valid, Room, GradientIn, WithRead, GradientCanBeRead, HasLabelsOf;
    NothingRead(files, prefix, own);
    var todo := parameters;
    ghost var done: set<string> := {};
    while todo != {}
      invariant todo <= parameters && done == parameters - todo
      invariant block.Valid() && fresh(block.Repr - old(block.Repr))
      invariant block.Model == WithRead(files, prefix, own, done)
      invariant forall p :: p in done ==> GradientCanBeRead(files, prefix, own, p)
      decreases todo
    {
      var p :| p in todo;
      OneMoreRead(files, prefix, own, done, p);
      var gradient := ReadGradient(files, prefix, p, properties, block, own);
      if gradient.Err? {
        return gradient;
      }
      todo := todo - {p};
      done := done + {p};
    }
    assert done == parameters;
    return Ok(());
  }

  lemma ReadIsComplete(files: Files, prefix: string, properties: Option<Labels>, own: Block)
    requires ReadOwn(files, prefix, properties) == Ok(own) && ReadBlock(files, prefix, properties).Some?
    ensures ReadBlock(files, prefix, properties).value == WithRead(files, prefix, own, ParametersIn(files, prefix))
  {
    hide ReadOwn, ParametersIn, GradientPrefix;
    assert ReadBlock(files, prefix, properties).value.gradients == WithRead(files, prefix, own, ParametersIn(files, prefix)).gradients;
  }

  lemma PropertiesAreValid(b: Block)
    requires ValidBlock(b)
    ensures ValidLabels(b.properties)
  {}

  lemma PropertiesOfModel(block: TensorBlock)
    requires block.Consistent()
    ensures block.properties == block.Model.properties
  {
    assert block.Model == block.Assembled();
  }

  /** Read a block and, recursively, its gradients. */
  method ReadSingleBlock(files: Files, prefix: string, properties: Option<Labels>) returns (r: Result<TensorBlock>)
    requires properties.Some? ==> ValidLabels(properties.value)
    ensures r.Ok? <==> ReadBlock(files, prefix, properties).Some?
    ensures r.Ok? ==> fresh(r.value.Repr) && r.value.Valid() && r.value.Model == ReadBlock(files, prefix, properties).value
    decreases Room(files, prefix), 2
  {
    NotReadable(files, prefix, properties);
    hide ReadBlock, ReadOwn, ParametersIn, ValidBlock, ValidLabels, TensorBlock.Consistent, WithRead, GradientCanBeRead;
    var block := ReadOwnBlock(files, prefix, properties);
    if block.Err? {
      return block;
    }
    ghost var own := ReadOwn(files, prefix, properties).value;
    ReadableExactly(files, prefix, properties, own);
    PropertiesAreValid(own);
    PropertiesOfModel(block.value);
    var parameters := FindGradients(files, prefix);
    var gradients := ReadGradients(files, prefix, parameters, block.value.properties, block.value, own);
    if gradients.Err? {
      return Err(gradients.error);
    }
    ReadIsComplete(files, prefix, properties, own);
    return block;
  }

  lemma NotReadable(files: Files, prefix: string, properties: Option<Labels>)
    ensures ReadOwn(files, prefix, properties).Err? ==> ReadBlock(files, prefix, properties) == None
  {}
}
