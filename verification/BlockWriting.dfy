/** Writing a block and its nested gradients to an archive: one file per array
    and per set of labels, under paths that start with the prefix of the block. */
module BlockWriting {
  import opened Wrappers
  import opened Sequences
  import opened Arrays
  import opened LabelSets
  import opened Blocks
  import opened Bytes
  import opened LabelFiles
  import opened DataFiles
  import opened ArchivePaths

  type Files = map<string, seq<byte>>

  /** The files of an archive, and the path of every file that was started, in
      order. */
  datatype Contents = Contents(files: Files, paths: seq<string>)

  /** No path was started twice. */
  ghost predicate NoRepeats(c: Contents) {
    Distinct(c.paths) && forall path :: path in c.paths <==> path in c.files
  }

  const EMPTY_ARCHIVE := Contents(map[], [])

  /** An archive that is being written. */
  class Archive {
    var contents: Contents

    constructor ()
      ensures contents == EMPTY_ARCHIVE
    {
      contents := EMPTY_ARCHIVE;
    }

    /** Start a file; what is written next goes there. */
    method StartFile(path: string)
      modifies this
      ensures contents == Contents(old(contents.files)[path := []], old(contents.paths) + [path])
    {
      contents := Contents(contents.files[path := []], contents.paths + [path]);
    }

    method Write(bytes: seq<byte>)
      requires contents.paths != [] && contents.paths[|contents.paths| - 1] in contents.files
      modifies this
      ensures var before := old(contents);
        var path := before.paths[|before.paths| - 1];
        contents == before.(files := before.files[path := before.files[path] + bytes])
    {
      var path := contents.paths[|contents.paths| - 1];
      contents := contents.(files := contents.files[path := contents.files[path] + bytes]);
    }
  }

  ghost predicate NothingUnder(files: Files, prefix: string) {
    forall path :: path in files ==> !(prefix <= path)
  }

  /** Files with other prefixes stay as they are. */
  ghost predicate SameElsewhere(before: Files, after: Files, prefix: string) {
    forall path :: !(prefix <= path) ==> (path in after <==> path in before) && (path in before ==> after[path] == before[path])
  }

  ghost predicate SameUnder(before: Files, after: Files, prefix: string) {
    forall path :: prefix <= path ==> (path in after <==> path in before) && (path in before ==> after[path] == before[path])
  }

  ghost predicate HasFile(files: Files, path: string, file: Result<seq<byte>>) {
    file.Ok? && path in files && files[path] == file.value
  }

  ghost predicate ComponentsStored(files: Files, prefix: string, components: seq<Labels>, n: nat, e: Endianness) {
    forall i: nat :: i < n && i < |components| ==> HasFile(files, ComponentPath(prefix, i), LabelsFile(components[i], e))
  }

  /** The files of the block itself are there. */
  ghost predicate OwnStored(files: Files, prefix: string, b: Block, values: bool, e: Endianness) {
    && HasFile(files, ValuesPath(prefix), DataFile(b.values, e))
    && HasFile(files, SamplesPath(prefix), LabelsFile(b.samples, e))
    && ComponentsStored(files, prefix, b.components, |b.components|, e)
    && (values ==> HasFile(files, PropertiesPath(prefix), LabelsFile(b.properties, e)))
  }

  /** The block can be saved: its labels have dimensions, and are not larger
      than the machine allows. */
  ghost predicate Savable(b: Block) {
    && Storable(b.samples) && Storable(b.properties) && (forall i :: 0 <= i < |b.components| ==> Storable(b.components[i]))
    && forall p :: p in b.gradients ==> Savable(b.gradients[p])
  }

  /** No header is too long to be written. */
  ghost predicate OwnFilesFit(b: Block, values: bool, e: Endianness) {
    && DataFile(b.values, e).Ok? && LabelsFile(b.samples, e).Ok?
    && (forall i :: 0 <= i < |b.components| ==> LabelsFile(b.components[i], e).Ok?)
    && (values ==> LabelsFile(b.properties, e).Ok?)
  }

  ghost predicate FilesFit(b: Block, values: bool, e: Endianness) {
    OwnFilesFit(b, values, e) && forall p :: p in b.gradients ==> FilesFit(b.gradients[p], false, e)
  }

  /** The parameters of all gradients can be told from their paths. */
  ghost predicate ParametersAreSlashFree(b: Block) {
    forall p :: p in b.gradients ==> SlashFree(p) && ParametersAreSlashFree(b.gradients[p])
  }

  /** All files of the block and its nested gradients are there, and no file
      shows any other gradient. */
  ghost predicate Stored(files: Files, prefix: string, b: Block, values: bool, e: Endianness)
    decreases b
  {
    && OwnStored(files, prefix, b, values, e)
    && (forall p :: p in b.gradients ==> Stored(files, GradientPrefix(prefix, p), b.gradients[p], false, e))
    && forall path :: path in files && ShowsGradient(path, prefix) ==> ParameterOf(path, prefix) in b.gradients
  }

  /** Whether a block is stored depends on the files under its prefix only. */
  lemma {:induction false} StoredUnder(before: Files, after: Files, prefix: string, b: Block, values: bool, e: Endianness)
    requires Stored(before, prefix, b, values, e) && SameUnder(before, after, prefix)
    ensures Stored(after, prefix, b, values, e)
    decreases b
  {
    OwnStoredUnder(before, after, prefix, b, values, e);
    hide OwnStored;
    forall p | p in b.gradients ensures Stored(after, GradientPrefix(prefix, p), b.gradients[p], false, e) {
      SameUnderGradient(before, after, prefix, p);
      StoredUnder(before, after, GradientPrefix(prefix, p), b.gradients[p], false, e);
    }
    forall path | path in after && ShowsGradient(path, prefix) ensures ParameterOf(path, prefix) in b.gradients {
      GradientsStartWithG(path, prefix);
    }
  }

  lemma SameUnderGradient(before: Files, after: Files, prefix: string, p: string)
    requires SameUnder(before, after, prefix)
    ensures SameUnder(before, after, GradientPrefix(prefix, p))
  {
    forall path | GradientPrefix(prefix, p) <= path
      ensures (path in after <==> path in before) && (path in before ==> after[path] == before[path])
    {
      GradientIsUnderPrefix(prefix, p, path);
    }
  }

  lemma OwnStoredUnder(before: Files, after: Files, prefix: string, b: Block, values: bool, e: Endianness)
    requires OwnStored(before, prefix, b, values, e) && SameUnder(before, after, prefix)
    ensures OwnStored(after, prefix, b, values, e)
  {
    hide DataFile, LabelsFile;
    forall i: nat | i < |b.components| ensures HasFile(after, ComponentPath(prefix, i), LabelsFile(b.components[i], e)) {
      OwnPaths(prefix, i);
    }
    OwnPaths(prefix, 0);
  }

  /** The first character behind the prefix. */
  predicate HasLetter(path: string, prefix: string, c: char) {
    prefix <= path && |path| > |prefix| && path[|prefix|] == c
  }

  /** Only files with this first character changed. */
  ghost predicate SameBut(before: Files, after: Files, prefix: string, c: char) {
    forall path :: !HasLetter(path, prefix, c) ==> (path in after <==> path in before) && (path in before ==> after[path] == before[path])
  }

  ghost predicate NoneWith(files: Files, prefix: string, c: char) {
    forall path :: path in files ==> !HasLetter(path, prefix, c)
  }

  /** The contents with one more file. */
  function WithFile(c: Contents, path: string, bytes: seq<byte>): Contents {
    Contents(c.files[path := bytes], c.paths + [path])
  }

  /** What ends up in a file: nothing, if writing it fails. */
  function Written(file: Result<seq<byte>>): seq<byte> {
    match file
    case Ok(bytes) => bytes
    case Err(_) => []
  }

  /** Write labels to a file of their own; if they do not fit in the format, the
      file stays empty. */
  method AddLabels(archive: Archive, path: string, labels: Labels, native: Endianness) returns (r: Result<()>)
    requires Storable(labels)
    modifies archive
    ensures r.Ok? <==> LabelsFile(labels, native).Ok?
    ensures r.Err? ==> r.error == Serialization
    ensures archive.contents == WithFile(old(archive.contents), path, Written(LabelsFile(labels, native)))
  {
    hide LabelsFile;
    archive.StartFile(path);
    LabelsFileFails(labels, native);
    var bytes :- SaveLabels(labels, native);
    archive.Write(bytes);
    assert [] + bytes == bytes;
    return Ok(());
  }

  lemma LabelsFileFails(labels: Labels, e: Endianness)
    ensures LabelsFile(labels, e).Err? ==> LabelsFile(labels, e).error == Serialization
  {}

  /** Write an array to a file of its own. */
  method AddData(archive: Archive, path: string, values: Array, native: Endianness) returns (r: Result<()>)
    modifies archive
    ensures r.Ok? <==> DataFile(values, native).Ok?
    ensures r.Err? ==> r.error == Serialization
    ensures archive.contents == WithFile(old(archive.contents), path, Written(DataFile(values, native)))
  {
    hide DataFile;
    archive.StartFile(path);
    DataFileFails(values, native);
    var bytes :- WriteData(values, native);
    archive.Write(bytes);
    assert [] + bytes == bytes;
    return Ok(());
  }

  lemma DataFileFails(values: Array, e: Endianness)
    ensures DataFile(values, e).Err? ==> DataFile(values, e).error == Serialization
  {}

  /** The order in which the files of a block are written, by their letters. */
  function Rank(c: char): nat {
    if c == 'v' then 0 else if c == 's' then 1 else if c == 'c' then 2 else if c == 'p' then 3 else 9
  }

  /** Files of the first `n` ranks may have been written since `start`. */
  ghost predicate Stage(start: Contents, now: Contents, prefix: string, n: nat) {
    && SameElsewhere(start.files, now.files, prefix)
    && (NothingUnder(start.files, prefix) ==> OnlyRanks(now.files, prefix, n))
    && (NothingUnder(start.files, prefix) && NoRepeats(start) ==> NoRepeats(now))
  }

  ghost predicate OnlyRanks(files: Files, prefix: string, n: nat) {
    forall path :: path in files && prefix <= path ==> |path| > |prefix| && Rank(path[|prefix|]) < n
  }

  lemma StageStarts(c: Contents, prefix: string)
    ensures Stage(c, c, prefix, 0)
  {}

  lemma StageGrows(start: Contents, now: Contents, prefix: string, n: nat, m: nat)
    requires Stage(start, now, prefix, n) && n <= m
    ensures Stage(start, now, prefix, m)
  {}

  lemma NewFileKeepsNoRepeats(c: Contents, path: string, bytes: seq<byte>)
    requires NoRepeats(c) && path !in c.files
    ensures NoRepeats(WithFile(c, path, bytes))
  {
    DistinctAppend(c.paths, path);
  }

  /** The file of the next rank is new. */
  lemma StageWithFile(start: Contents, now: Contents, prefix: string, n: nat, path: string, bytes: seq<byte>)
    requires Stage(start, now, prefix, n) && prefix <= path && |path| > |prefix| && Rank(path[|prefix|]) == n
    ensures Stage(start, WithFile(now, path, bytes), prefix, n + 1)
    ensures SameBut(now.files, WithFile(now, path, bytes).files, prefix, path[|prefix|])
  {
    if NothingUnder(start.files, prefix) && NoRepeats(start) {
      NewFileKeepsNoRepeats(now, path, bytes);
    }
  }

  /** The components that are there are the first ones. */
  ghost predicate OnlyFirst(files: Files, prefix: string, n: nat) {
    forall path :: path in files && HasLetter(path, prefix, 'c') ==> exists i: nat :: i < n && path == ComponentPath(prefix, i)
  }

  lemma PathIsNew(files: Files, prefix: string, n: nat)
    ensures OnlyFirst(files, prefix, n) ==> ComponentPath(prefix, n) !in files
  {
    OwnPaths(prefix, n);
    hide ComponentPath;
    forall i: nat | i < n ensures ComponentPath(prefix, i) != ComponentPath(prefix, n) {
      ComponentPathsDiffer(prefix, i, n);
    }
  }

  lemma OneMoreComponent(before: Contents, prefix: string, n: nat, bytes: seq<byte>)
    ensures var after := WithFile(before, ComponentPath(prefix, n), bytes);
      && SameBut(before.files, after.files, prefix, 'c')
      && (OnlyFirst(before.files, prefix, n) ==> OnlyFirst(after.files, prefix, n + 1) && (NoRepeats(before) ==> NoRepeats(after)))
  {
    OwnPaths(prefix, n);
    PathIsNew(before.files, prefix, n);
    hide ComponentPath;
    var after := WithFile(before, ComponentPath(prefix, n), bytes);
    if OnlyFirst(before.files, prefix, n) {
      forall path | path in after.files && HasLetter(path, prefix, 'c') ensures exists i: nat :: i < n + 1 && path == ComponentPath(prefix, i) {
        if path == ComponentPath(prefix, n) {
          assert n < n + 1;
        } else {
          var i: nat :| i < n && path == ComponentPath(prefix, i);
          assert i < n + 1;
        }
      }
      if NoRepeats(before) {
        NewFileKeepsNoRepeats(before, ComponentPath(prefix, n), bytes);
      }
    }
  }

  lemma ComponentStored(before: Contents, prefix: string, components: seq<Labels>, n: nat, e: Endianness)
    requires n < |components| && LabelsFile(components[n], e).Ok?
    requires ComponentsStored(before.files, prefix, components, n, e)
    ensures ComponentsStored(WithFile(before, ComponentPath(prefix, n), LabelsFile(components[n], e).value).files, prefix, components, n + 1, e)
  {
    hide ComponentPath, LabelsFile;
    var after := WithFile(before, ComponentPath(prefix, n), LabelsFile(components[n], e).value);
    forall i: nat | i < n + 1 && i < |components| ensures HasFile(after.files, ComponentPath(prefix, i), LabelsFile(components[i], e)) {
      if i != n {
        ComponentPathsDiffer(prefix, i, n);
      }
    }
  }

  /** Files with this first character may have been added since `before`. */
  ghost predicate Adding(before: Contents, now: Contents, prefix: string, n: nat) {
    && SameBut(before.files, now.files, prefix, 'c')
    && (NoneWith(before.files, prefix, 'c') ==> OnlyFirst(now.files, prefix, n))
    && (NoneWith(before.files, prefix, 'c') && NoRepeats(before) ==> NoRepeats(now))
  }

  lemma AddingOneMore(before: Contents, now: Contents, prefix: string, n: nat, bytes: seq<byte>)
    requires Adding(before, now, prefix, n)
    ensures Adding(before, WithFile(now, ComponentPath(prefix, n), bytes), prefix, n + 1)
  {
    OneMoreComponent(now, prefix, n, bytes);
  }

  lemma AddingStarts(c: Contents, prefix: string)
    ensures Adding(c, c, prefix, 0)
  {}

  lemma StageWithComponents(start: Contents, before: Contents, now: Contents, prefix: string, n: nat)
    requires Stage(start, before, prefix, 2) && Adding(before, now, prefix, n)
    ensures Stage(start, now, prefix, 3)
  {}

  /** Write the components, each in its own file. */
  method WriteComponents(archive: Archive, prefix: string, components: seq<Labels>, native: Endianness, ghost start: Contents) returns (r: Result<()>)
    requires forall i :: 0 <= i < |components| ==> Storable(components[i])
    requires Stage(start, archive.contents, prefix, 2)
    modifies archive
    ensures Stage(start, archive.contents, prefix, 3)
    ensures SameBut(old(archive.contents.files), archive.contents.files, prefix, 'c')
    ensures r.Ok? <==> forall i :: 0 <= i < |components| ==> LabelsFile(components[i], native).Ok?
    ensures r.Err? ==> r.error == Serialization
    ensures r.Ok? ==> ComponentsStored(archive.contents.files, prefix, components, |components|, native)
  {
    hide LabelsFile, ComponentPath, Stage, WithFile;
    ghost var before := archive.contents;
    AddingStarts(before, prefix);
    for i := 0 to |components|
      invariant Adding(before, archive.contents, prefix, i)
      invariant forall k :: 0 <= k < i ==> LabelsFile(components[k], native).Ok?
      invariant ComponentsStored(archive.contents.files, prefix, components, i, native)
    {
      hide Adding, ComponentsStored;
      ghost var now := archive.contents;
      var added := AddLabels(archive, ComponentPath(prefix, i), components[i], native);
      AddingOneMore(before, now, prefix, i, Written(LabelsFile(components[i], native)));
      if added.Err? {
        StageWithComponents(start, before, archive.contents, prefix, i + 1);
        AddingSame(before, archive.contents, prefix, i + 1);
        return Err(added.error);
      }
      ComponentStored(now, prefix, components, i, native);
    }
    StageWithComponents(start, before, archive.contents, prefix, |components|);
    return Ok(());
  }

  lemma AddingSame(before: Contents, now: Contents, prefix: string, n: nat)
    requires Adding(before, now, prefix, n)
    ensures SameBut(before.files, now.files, prefix, 'c')
  {}

  lemma FileIsKept(before: Files, after: Files, prefix: string, letter: char, path: string, file: Result<seq<byte>>)
    requires SameBut(before, after, prefix, letter) && prefix <= path && |path| > |prefix| && path[|prefix|] != letter
    ensures HasFile(before, path, file) ==> HasFile(after, path, file)
  {}

  lemma ComponentsAreKept(before: Files, after: Files, prefix: string, letter: char, components: seq<Labels>, e: Endianness)
    requires SameBut(before, after, prefix, letter) && letter != 'c'
    ensures ComponentsStored(before, prefix, components, |components|, e) ==> ComponentsStored(after, prefix, components, |components|, e)
  {
    hide LabelsFile;
    if ComponentsStored(before, prefix, components, |components|, e) {
      forall i: nat | i < |components| ensures HasFile(after, ComponentPath(prefix, i), LabelsFile(components[i], e)) {
        OwnPaths(prefix, i);
      }
    }
  }

  /** Write the files of the block itself. */
  method WriteOwnFiles(archive: Archive, prefix: string, values: bool, b: Block, native: Endianness) returns (r: Result<()>)
    requires Savable(b)
    modifies archive
    ensures Stage(old(archive.contents), archive.contents, prefix, 4)
    ensures r.Ok? <==> OwnFilesFit(b, values, native)
    ensures r.Err? ==> r.error == Serialization
    ensures r.Ok? ==> OwnStored(archive.contents.files, prefix, b, values, native)
  {
    ghost var start := archive.contents;
    OwnPaths(prefix, 0);
    hide LabelsFile, DataFile, ValuesPath, SamplesPath, PropertiesPath, Stage, HasFile, ComponentsStored, Storable, WithFile, SameBut;
    StageStarts(start, prefix);
    r := AddData(archive, ValuesPath(prefix), b.values, native);
    ghost var first := archive.contents;
    ValuesAdded(start, prefix, b.values, native);
    StageGrows(start, first, prefix, 1, 4);
    if r.Err? {
      return;
    }
    r := AddLabels(archive, SamplesPath(prefix), b.samples, native);
    ghost var second := archive.contents;
    SamplesAdded(start, first, prefix, b, native);
    StageGrows(start, second, prefix, 2, 4);
    if r.Err? {
      return;
    }
    r := WriteComponents(archive, prefix, b.components, native, start);
    ghost var third := archive.contents;
    FirstAreKept(second.files, third.files, prefix, 'c', b, native);
    StageGrows(start, third, prefix, 3, 4);
    if r.Err? || !values {
      return;
    }
    r := AddLabels(archive, PropertiesPath(prefix), b.properties, native);
    PropertiesAdded(start, third, prefix, b, native, LabelsFile(b.properties, native));
  }

  /** A file of the next rank is written. */
  lemma FileAdded(start: Contents, now: Contents, prefix: string, n: nat, letter: char, path: string, file: Result<seq<byte>>)
    requires Stage(start, now, prefix, n) && HasLetter(path, prefix, letter) && Rank(letter) == n
    ensures var after := WithFile(now, path, Written(file));
      && Stage(start, after, prefix, n + 1)
      && SameBut(now.files, after.files, prefix, letter)
      && (file.Ok? ==> HasFile(after.files, path, file))
  {
    hide Stage, SameBut;
    StageWithFile(start, now, prefix, n, path, Written(file));
  }

  lemma ValuesAdded(start: Contents, prefix: string, values: Array, e: Endianness)
    ensures var after := WithFile(start, ValuesPath(prefix), Written(DataFile(values, e)));
      && Stage(start, after, prefix, 1)
      && (DataFile(values, e).Ok? ==> HasFile(after.files, ValuesPath(prefix), DataFile(values, e)))
  {
    OwnPaths(prefix, 0);
    hide DataFile, ValuesPath, Stage, HasFile, WithFile, Written;
    StageStarts(start, prefix);
    FileAdded(start, start, prefix, 0, 'v', ValuesPath(prefix), DataFile(values, e));
  }

  lemma SamplesAdded(start: Contents, now: Contents, prefix: string, b: Block, e: Endianness)
    requires Stage(start, now, prefix, 1) && HasFile(now.files, ValuesPath(prefix), DataFile(b.values, e))
    ensures var after := WithFile(now, SamplesPath(prefix), Written(LabelsFile(b.samples, e)));
      && Stage(start, after, prefix, 2)
      && HasFile(after.files, ValuesPath(prefix), DataFile(b.values, e))
      && (LabelsFile(b.samples, e).Ok? ==> HasFile(after.files, SamplesPath(prefix), LabelsFile(b.samples, e)))
  {
    OwnPaths(prefix, 0);
    hide DataFile, LabelsFile, ValuesPath, SamplesPath, Stage, SameBut, HasFile, WithFile, Written;
    var after := WithFile(now, SamplesPath(prefix), Written(LabelsFile(b.samples, e)));
    FileAdded(start, now, prefix, 1, 's', SamplesPath(prefix), LabelsFile(b.samples, e));
    FileIsKept(now.files, after.files, prefix, 's', ValuesPath(prefix), DataFile(b.values, e));
  }

  lemma FirstAreKept(before: Files, after: Files, prefix: string, letter: char, b: Block, e: Endianness)
    requires SameBut(before, after, prefix, letter) && letter != 'v' && letter != 's'
    requires HasFile(before, ValuesPath(prefix), DataFile(b.values, e)) && HasFile(before, SamplesPath(prefix), LabelsFile(b.samples, e))
    ensures HasFile(after, ValuesPath(prefix), DataFile(b.values, e)) && HasFile(after, SamplesPath(prefix), LabelsFile(b.samples, e))
  {
    OwnPaths(prefix, 0);
    hide DataFile, LabelsFile, ValuesPath, SamplesPath, SameBut, HasFile;
    FileIsKept(before, after, prefix, letter, ValuesPath(prefix), DataFile(b.values, e));
    FileIsKept(before, after, prefix, letter, SamplesPath(prefix), LabelsFile(b.samples, e));
  }

  /** The files of the block are there, apart from the properties. */
  ghost predicate FirstStored(files: Files, prefix: string, b: Block, e: Endianness) {
    OwnStored(files, prefix, b, false, e)
  }

  lemma FirstStoredIsKept(before: Files, after: Files, prefix: string, b: Block, e: Endianness)
    requires FirstStored(before, prefix, b, e) && SameBut(before, after, prefix, 'p')
    ensures FirstStored(after, prefix, b, e)
  {
    hide DataFile, LabelsFile, ValuesPath, SamplesPath, SameBut, ComponentsStored, HasFile;
    FirstAreKept(before, after, prefix, 'p', b, e);
    ComponentsAreKept(before, after, prefix, 'p', b.components, e);
  }

  lemma PropertiesComplete(files: Files, prefix: string, b: Block, e: Endianness)
    requires FirstStored(files, prefix, b, e) && HasFile(files, PropertiesPath(prefix), LabelsFile(b.properties, e))
    ensures OwnStored(files, prefix, b, true, e)
  {
    hide DataFile, LabelsFile, ValuesPath, SamplesPath, PropertiesPath, ComponentsStored, HasFile;
  }

  lemma PropertiesAdded(start: Contents, now: Contents, prefix: string, b: Block, e: Endianness, file: Result<seq<byte>>)
    requires Stage(start, now, prefix, 3) && FirstStored(now.files, prefix, b, e) && file == LabelsFile(b.properties, e)
    ensures Stage(start, WithFile(now, PropertiesPath(prefix), Written(file)), prefix, 4)
    ensures file.Ok? ==> OwnStored(WithFile(now, PropertiesPath(prefix), Written(file)).files, prefix, b, true, e)
  {
    hide LabelsFile, PropertiesPath, ValuesPath, SamplesPath, ComponentPath, Stage, SameBut, HasFile, WithFile, Written, OwnStored, FirstStored;
    PropertiesLetter(prefix);
    FileAdded(start, now, prefix, 3, 'p', PropertiesPath(prefix), file);
    FirstStoredIsKept(now.files, WithFile(now, PropertiesPath(prefix), Written(file)).files, prefix, b, e);
    if file.Ok? {
      PropertiesComplete(WithFile(now, PropertiesPath(prefix), Written(file)).files, prefix, b, e);
    }
  }

  lemma PropertiesLetter(prefix: string)
    ensures HasLetter(PropertiesPath(prefix), prefix, 'p') && Rank('p') == 3
  {
    OwnPaths(prefix, 0);
  }

  /** Every file under the prefix belongs to the block itself, or to one of the
      gradients that are written. */
  ghost predicate OnlyListed(files: Files, prefix: string, done: set<string>) {
    forall path :: path in files && prefix <= path ==>
      IsOwnPath(path, prefix) || (GradientsPrefix(prefix) <= path && ParameterOf(path, prefix) in done)
  }

  ghost predicate GradientsStored(files: Files, prefix: string, b: Block, done: set<string>, e: Endianness) {
    forall p :: p in done && p in b.gradients ==> Stored(files, GradientPrefix(prefix, p), b.gradients[p], false, e)
  }

  /** The gradients in `done` are written, if nothing was in the way. */
  ghost predicate Progress(start: Contents, now: Contents, prefix: string, b: Block, values: bool, done: set<string>, e: Endianness) {
    && SameElsewhere(start.files, now.files, prefix)
    && (NothingUnder(start.files, prefix) && ParametersAreSlashFree(b) ==>
          && OwnStored(now.files, prefix, b, values, e)
          && GradientsStored(now.files, prefix, b, done, e)
          && OnlyListed(now.files, prefix, done)
          && (NoRepeats(start) ==> NoRepeats(now)))
  }

  /** What writing a block achieves. */
  ghost predicate BlockIsWritten(start: Contents, now: Contents, prefix: string, b: Block, values: bool, e: Endianness) {
    && SameElsewhere(start.files, now.files, prefix)
    && (NothingUnder(start.files, prefix) && ParametersAreSlashFree(b) ==>
          Stored(now.files, prefix, b, values, e) && (NoRepeats(start) ==> NoRepeats(now)))
  }

  lemma ProgressStarts(start: Contents, now: Contents, prefix: string, b: Block, values: bool, e: Endianness)
    requires Stage(start, now, prefix, 4) && OwnStored(now.files, prefix, b, values, e)
    ensures Progress(start, now, prefix, b, values, {}, e)
  {
    hide OwnStored;
  }

  lemma ProgressEnds(start: Contents, now: Contents, prefix: string, b: Block, values: bool, e: Endianness)
    requires Progress(start, now, prefix, b, values, b.gradients.Keys, e)
    ensures BlockIsWritten(start, now, prefix, b, values, e)
  {
    hide OwnStored;
    forall path | path in now.files && ShowsGradient(path, prefix)
      ensures OnlyListed(now.files, prefix, b.gradients.Keys) ==> ParameterOf(path, prefix) in b.gradients
    {
      GradientsStartWithG(path, prefix);
    }
  }

  lemma NothingUnderGradient(files: Files, prefix: string, done: set<string>, q: string)
    requires OnlyListed(files, prefix, done) && SlashFree(q) && q !in done
    ensures NothingUnder(files, GradientPrefix(prefix, q))
  {
    forall path | path in files ensures !(GradientPrefix(prefix, q) <= path) {
      if GradientPrefix(prefix, q) <= path {
        GradientPathNamesParameter(prefix, q, path);
        GradientsStartWithG(path, prefix);
      }
    }
  }

  /** Writing one gradient does not touch the files of another. */
  lemma OtherGradientIsSame(before: Files, after: Files, prefix: string, p: string, q: string)
    requires SameElsewhere(before, after, GradientPrefix(prefix, q)) && SlashFree(p) && SlashFree(q) && p != q
    ensures SameUnder(before, after, GradientPrefix(prefix, p))
  {
    forall path | GradientPrefix(prefix, p) <= path
      ensures (path in after <==> path in before) && (path in before ==> after[path] == before[path])
    {
      GradientPathNamesParameter(prefix, p, path);
      if GradientPrefix(prefix, q) <= path {
        GradientPathNamesParameter(prefix, q, path);
      }
    }
  }

  /** Writing a gradient does not touch the files of the block itself. */
  lemma OwnFilesAreSame(before: Files, after: Files, prefix: string, q: string)
    requires SameElsewhere(before, after, GradientPrefix(prefix, q))
    ensures forall path :: IsOwnPath(path, prefix) ==> (path in after <==> path in before) && (path in before ==> after[path] == before[path])
  {
    forall path | IsOwnPath(path, prefix)
      ensures (path in after <==> path in before) && (path in before ==> after[path] == before[path])
    {
      if GradientPrefix(prefix, q) <= path {
        GradientIsUnderPrefix(prefix, q, path);
        GradientsStartWithG(path, prefix);
      }
    }
  }

  lemma OwnStoredIsKept(before: Files, after: Files, prefix: string, b: Block, values: bool, e: Endianness)
    requires forall path :: IsOwnPath(path, prefix) ==> (path in after <==> path in before) && (path in before ==> after[path] == before[path])
    requires OwnStored(before, prefix, b, values, e)
    ensures OwnStored(after, prefix, b, values, e)
  {
    hide DataFile, LabelsFile, ComponentPath, ValuesPath, SamplesPath, PropertiesPath;
    OwnPaths(prefix, 0);
    forall i: nat | i < |b.components| ensures HasFile(after, ComponentPath(prefix, i), LabelsFile(b.components[i], e)) {
      OwnPaths(prefix, i);
    }
  }

  lemma MoreListed(before: Files, after: Files, prefix: string, done: set<string>, q: string)
    requires OnlyListed(before, prefix, done) && SlashFree(q) && SameElsewhere(before, after, GradientPrefix(prefix, q))
    ensures OnlyListed(after, prefix, done + {q})
  {
    forall path | path in after && prefix <= path
      ensures IsOwnPath(path, prefix) || (GradientsPrefix(prefix) <= path && ParameterOf(path, prefix) in done + {q})
    {
      if GradientPrefix(prefix, q) <= path {
        GradientPathNamesParameter(prefix, q, path);
      }
    }
  }

  lemma MoreGradientsStored(before: Files, after: Files, prefix: string, b: Block, done: set<string>, q: string, e: Endianness)
    requires GradientsStored(before, prefix, b, done, e) && done <= b.gradients.Keys && ParametersAreSlashFree(b)
    requires q in b.gradients && q !in done && SameElsewhere(before, after, GradientPrefix(prefix, q))
    requires Stored(after, GradientPrefix(prefix, q), b.gradients[q], false, e)
    ensures GradientsStored(after, prefix, b, done + {q}, e)
  {
    hide Stored, SameElsewhere, SameUnder;
    forall p | p in done + {q} && p in b.gradients ensures Stored(after, GradientPrefix(prefix, p), b.gradients[p], false, e) {
      if p != q {
        OtherGradientIsSame(before, after, prefix, p, q);
        StoredUnder(before, after, GradientPrefix(prefix, p), b.gradients[p], false, e);
      }
    }
  }

  lemma SameElsewhereChain(start: Files, before: Files, after: Files, prefix: string, q: string)
    requires SameElsewhere(start, before, prefix) && SameElsewhere(before, after, GradientPrefix(prefix, q))
    ensures SameElsewhere(start, after, prefix)
  {
    forall path | !(prefix <= path)
      ensures (path in after <==> path in start) && (path in start ==> after[path] == start[path])
    {
      if GradientPrefix(prefix, q) <= path {
        GradientIsUnderPrefix(prefix, q, path);
      }
    }
  }

  /** One more gradient is written. */
  lemma ProgressContinues(start: Contents, before: Contents, after: Contents, prefix: string, b: Block, values: bool,
                          done: set<string>, q: string, e: Endianness)
    requires Progress(start, before, prefix, b, values, done, e) && done <= b.gradients.Keys
    requires q in b.gradients && q !in done
    requires BlockIsWritten(before, after, GradientPrefix(prefix, q), b.gradients[q], false, e)
    ensures Progress(start, after, prefix, b, values, done + {q}, e)
  {
    SameElsewhereChain(start.files, before.files, after.files, prefix, q);
    hide Stored, OwnStored, SameElsewhere, NothingUnder, OnlyListed, GradientsStored, NoRepeats;
    if NothingUnder(start.files, prefix) && ParametersAreSlashFree(b) {
      NothingUnderGradient(before.files, prefix, done, q);
      OwnFilesAreSame(before.files, after.files, prefix, q);
      OwnStoredIsKept(before.files, after.files, prefix, b, values, e);
      MoreListed(before.files, after.files, prefix, done, q);
      MoreGradientsStored(before.files, after.files, prefix, b, done, q, e);
    }
  }

  ghost predicate GradientsFit(b: Block, done: set<string>, e: Endianness) {
    forall p :: p in done && p in b.gradients ==> FilesFit(b.gradients[p], false, e)
  }

  /** Write one gradient after the other. */
  method WriteGradients(archive: Archive, prefix: string, b: Block, native: Endianness, ghost start: Contents, ghost values: bool) returns (r: Result<()>)
    requires Savable(b) && Progress(start, archive.contents, prefix, b, values, {}, native)
    modifies archive
    ensures r.Ok? <==> GradientsFit(b, b.gradients.Keys, native)
    ensures r.Err? ==> r.error == Serialization
    ensures r.Ok? ==> Progress(start, archive.contents, prefix, b, values, b.gradients.Keys, native)
    ensures SameElsewhere(start.files, archive.contents.files, prefix)
    decreases b, 0
  {
    hide Progress, BlockIsWritten, SameElsewhere, FilesFit;
    var todo := b.gradients.Keys;
    ghost var done: set<string> := {};
    while todo != {}
      invariant todo <= b.gradients.Keys && done == b.gradients.Keys - todo
      invariant Progress(start, archive.contents, prefix, b, values, done, native)
      invariant GradientsFit(b, done, native)
      decreases todo
    {
      var p :| p in todo;
      ghost var before := archive.contents;
      ProgressSame(start, before, prefix, b, values, done, native);
      var gradient := WriteSingleBlock(archive, GradientPrefix(prefix, p), false, b.gradients[p], native);
      if gradient.Err? {
        SameElsewhereChain(start.files, before.files, archive.contents.files, prefix, p);
        return gradient;
      }
      ProgressContinues(start, before, archive.contents, prefix, b, values, done, p, native);
      todo := todo - {p};
      done := done + {p};
    }
    ProgressSame(start, archive.contents, prefix, b, values, done, native);
    assert done == b.gradients.Keys;
    return Ok(());
  }

  /** Write a block and, recursively, its gradients. Below an unused prefix, and
      when parameters have no slash, no path is written twice and every file can
      be found again. */
  method WriteSingleBlock(archive: Archive, prefix: string, values: bool, b: Block, native: Endianness) returns (r: Result<()>)
    requires Savable(b)
    modifies archive
    ensures r.Ok? <==> FilesFit(b, values, native)
    ensures r.Err? ==> r.error == Serialization
    ensures r.Ok? ==> BlockIsWritten(old(archive.contents), archive.contents, prefix, b, values, native)
    ensures SameElsewhere(old(archive.contents.files), archive.contents.files, prefix)
    decreases b, 1
  {
    hide Progress, BlockIsWritten, SameElsewhere, OwnFilesFit, OwnStored, OnlyRanks;
    ghost var start := archive.contents;
    var own := WriteOwnFiles(archive, prefix, values, b, native);
    if own.Err? {
      return own;
    }
    ProgressStarts(start, archive.contents, prefix, b, values, native);
    r := WriteGradients(archive, prefix, b, native, start, values);
    if r.Ok? {
      ProgressEnds(start, archive.contents, prefix, b, values, native);
    }
  }

  lemma ProgressSame(start: Contents, now: Contents, prefix: string, b: Block, values: bool, done: set<string>, e: Endianness)
    requires Progress(start, now, prefix, b, values, done, e)
    ensures SameElsewhere(start.files, now.files, prefix)
  {}
}
