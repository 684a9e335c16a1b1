/**
 * `FilesManager` (src/windows/models/files_model.py:347-566 and 633-666):
 * the owner of the table model and its filter proxy, the project-change
 * listener, the batch import and the image-sequence detector. The table's
 * `data` is the project's "files" list itself, so saving a file appends to
 * it.
 */
module FilesManagers {
  import opened Optional
  import opened Text
  import opened Decimal
  import opened PosixPath
  import opened FrameNames
  import opened ImageSequences
  import opened FileTable
  import opened FilterProxy
  import opened FilesModels
  import opened ImportBatch

  /** One element of an update's key path: a name such as "files", or a match such as `{"id": ...}`. */
  datatype KeyPart = Name(name: string) | Match(fields: map<string, string>)

  /** An update action as the update manager hands it over. */
  datatype Action = Action(kind: string, key: seq<KeyPart>)

  /** What `changed(action)` does to the table: keep its rows, reload them, or raise. */
  datatype Effect = KeepRows | ClearRows | Raises

  /**
   * `changed(action)`: `.lower()` on a match raises; a delete of files reads
   * `key[1].get('id')`, which raises when that part is missing or a name.
   */
  function ChangeEffect(a: Action): Effect {
    if |a.key| >= 1 && a.key[0].Match? then Raises
    else
      var isFiles := |a.key| >= 1 && Lower(a.key[0].name) == "files";
      if !(isFiles || a.kind == "load") then KeepRows
      else if a.kind == "insert" then KeepRows
      else if a.kind == "delete" && isFiles then (if |a.key| < 2 || a.key[1].Name? then Raises else KeepRows)
      else if a.kind == "update" && isFiles then KeepRows
      else ClearRows
  }

  /**
   * The rows are reloaded only for a project load or an unknown change of
   * the files; inserts, deletes and updates keep them.
   */
  lemma ClearsOnlyOnReload(a: Action)
    ensures ChangeEffect(a) == ClearRows ==> a.kind != "insert" && a.kind != "delete" && a.kind != "update"
    ensures a.kind == "load" && (a.key == [] || a.key[0].Name?) ==> ChangeEffect(a) == ClearRows
    ensures |a.key| >= 1 && a.key[0] == Name("files") && a.kind != "insert" && a.kind != "delete" && a.kind != "update"
      ==> ChangeEffect(a) == ClearRows
  {
    if |a.key| >= 1 && a.key[0] == Name("files") {
      assert Lower("files") == "files";
    }
  }

  /** Changes to anything but the files leave the table alone, unless they load a project. */
  lemma OtherKeysKeepRows(a: Action)
    requires |a.key| >= 1 && a.key[0].Name? && Lower(a.key[0].name) != "files" && a.kind != "load"
    ensures ChangeEffect(a) == KeepRows
  {
  }

  /** The loop of `add_files` that removes the other frames of a sequence from the list being imported. */
  method RemoveSiblingFrames(files: seq<string>, hits: seq<string>, current: string) returns (remaining: seq<string>)
    ensures remaining == RemoveFrames(files, hits, current)
  {
    remaining := files;
    var j := 0;
    while j < |hits|
      invariant 0 <= j <= |hits|
      invariant RemoveFrames(remaining, hits[j..], current) == RemoveFrames(files, hits, current)
    {
      var hit := hits[j];
      assert hits[j..][0] == hit && hits[j..][1..] == hits[j + 1..];
      if hit in remaining && hit != current {
        remaining := RemoveFirst(remaining, hit);
      }
      j := j + 1;
    }
    assert hits[j..] == [];
  }

  class FilesManager {
    var baseModel: FilesModel
    var proxy: FileFilterProxy
    var ignoreSequencePaths: seq<string>
    /** The project's "import_path" setting. */
    var importPath: Option<string>

    /** `__init__`: a fresh table over the project's files, a proxy showing all types, and no skipped directories. */
    constructor(project: Option<seq<FileEntry>>, importPath: Option<string>)
      ensures fresh(baseModel) && fresh(proxy)
      ensures baseModel.data == project.GetOr([]) && baseModel.thumbPaths == map[]
      ensures proxy.filterGroup == AllMediaTypes && proxy.filterText == "" && proxy.Valid()
      ensures ignoreSequencePaths == [] && this.importPath == importPath
    {
      baseModel := new FilesModel(project);
      ignoreSequencePaths := [];
      proxy := new FileFilterProxy();
      this.importPath := importPath;
    }

    /** `update_model(clear)`: only a clearing update reloads the table. */
    method UpdateModel(clear: bool, project: Option<seq<FileEntry>>) returns (done: bool)
      modifies baseModel
      ensures done
      ensures clear ==> baseModel.data == project.GetOr(old(baseModel.data)) && baseModel.thumbPaths == map[]
      ensures !clear ==> baseModel.data == old(baseModel.data) && baseModel.thumbPaths == old(baseModel.thumbPaths)
    {
      if clear {
        baseModel.ResetModel(project);
      }
      return true;
    }

    /** `changed(action)`, with the project's file list at that moment. */
    method Changed(a: Action, project: Option<seq<FileEntry>>) returns (effect: Effect)
      modifies baseModel
      ensures effect == ChangeEffect(a)
      ensures effect == ClearRows ==> baseModel.data == project.GetOr(old(baseModel.data)) && baseModel.thumbPaths == map[]
      ensures effect != ClearRows ==> baseModel.data == old(baseModel.data) && baseModel.thumbPaths == old(baseModel.thumbPaths)
    {
      effect := ChangeEffect(a);
      if effect == ClearRows {
        var _ := UpdateModel(true, project);
      }
    }

    /**
     * `get_image_sequence_details(filePath)`, over the listing `fs`, with
     * `answer` the user's reply to the prompt.
     */
    method GetImageSequenceDetails(filePath: string, fs: seq<string>, answer: bool) returns (details: Option<SequenceDetails>)
      modifies this`ignoreSequencePaths
      ensures var r := DetectSequence(old(ignoreSequencePaths), fs, filePath, answer);
        ignoreSequencePaths == r.ignored && details == r.details
    {
      var dirName := SplitPath(filePath).0;
      var fileName := SplitPath(filePath).1;
      if dirName in ignoreSequencePaths {
        return None;
      }
      var found := ParseFrameName(fileName);
      if found.None? {
        UnrecognisedNameIsNoSequence(ignoreSequencePaths, fs, filePath, answer);
        return None;
      }
      var f := found.value;
      DetectSequenceOfFrame(ignoreSequencePaths, fs, filePath, answer, f);
      details := CheckFrame(dirName, f, fs, answer);
    }

    /** The part of `get_image_sequence_details` after the name was recognised: the width decision and the neighbour scan. */
    method CheckFrame(dirName: string, f: FrameName, fs: seq<string>, answer: bool) returns (details: Option<SequenceDetails>)
      requires AllDigits(f.numeral)
      modifies this`ignoreSequencePaths
      ensures var c := CandidateOf(fs, dirName, f);
        if NeighbourExists(fs, c.fullBase, c.number, c.digits, c.fixlen, f.ext) then
          ignoreSequencePaths == old(ignoreSequencePaths) + [dirName]
          && details == (if answer then Some(SequenceDetails(dirName, f.base, c.fixlen, c.digits, f.ext)) else None)
        else ignoreSequencePaths == old(ignoreSequencePaths) && details == None
    {
      var fullBase := Join(dirName, f.base);
      var digits := |f.zeros| + |f.numeral|;
      var number := ParseNat(f.numeral);
      var fixlen := DecideFixlen(fs, fullBase, |f.zeros| > 0, digits, f.ext);
      CandidateOfIs(fs, dirName, f);
      var neighbour := FindNeighbourFrame(fs, fullBase, number, digits, fixlen, f.ext);
      if !neighbour {
        return None;
      }
      ignoreSequencePaths := ignoreSequencePaths + [dirName];
      details := if answer then Some(SequenceDetails(dirName, f.base, fixlen, digits, f.ext)) else None;
    }

    /** The sequence details of one file: the `image_seq_details` argument when there is one, else the detector's answer. */
    method DetectFor(env: ImportEnv, path: string) returns (details: Option<SequenceDetails>)
      modifies this`ignoreSequencePaths
      ensures Detection(ignoreSequencePaths, details) == DetectionFor(env, old(ignoreSequencePaths), path)
    {
      if env.hint.Some? {
        details := env.hint;
      } else {
        details := GetImageSequenceDetails(path, env.fs, env.confirm(SplitPath(path).1));
      }
    }

    /** `new_file.save()` and the "import_path" update that follows it. */
    method SaveFile(e: FileEntry, dir: string)
      modifies baseModel`data, this`importPath
      ensures baseModel.data == old(baseModel.data) + [e]
      ensures importPath == (if Some(dir) != old(importPath) then Some(dir) else old(importPath))
    {
      baseModel.data := baseModel.data + [e];
      if Some(dir) != importPath {
        importPath := Some(dir);
      }
    }

    /** One turn of the `add_files` loop, on the file at position `i` of the list being walked. */
    method ImportFile(env: ImportEnv, list: seq<string>, i: nat, failures: seq<string>)
      returns (list': seq<string>, failures': seq<string>)
      requires i < |list|
      modifies this`ignoreSequencePaths, this`importPath, baseModel`data
      ensures Batch(list', i + 1, baseModel.data, ignoreSequencePaths, importPath, failures')
        == Step(env, Batch(list, i, old(baseModel.data), old(ignoreSequencePaths), old(importPath), failures))
    {
      list', failures' := list, failures;
      ghost var b := Batch(list, i, baseModel.data, ignoreSequencePaths, importPath, failures);
      var path := list[i];
      var (dir, name) := SplitPath(path);
      if InCatalog(baseModel.data, path) {
        CataloguedPathSkipped(env, b);
        return;
      }
      var probed := env.probe(path);
      if probed.ProbeFailed? {
        if !env.quiet {
          failures' := failures + [name];
        }
        FailedProbeContinues(env, b);
        return;
      }
      list', failures' := ImportProbedFile(env, list, i, failures);
    }

    /** The rest of a turn once the file is new and the probe succeeded: detect, then save the file or the sequence. */
    method ImportProbedFile(env: ImportEnv, list: seq<string>, i: nat, failures: seq<string>)
      returns (list': seq<string>, failures': seq<string>)
      requires i < |list| && !InCatalog(baseModel.data, list[i]) && env.probe(list[i]).Probed?
      modifies this`ignoreSequencePaths, this`importPath, baseModel`data
      ensures Batch(list', i + 1, baseModel.data, ignoreSequencePaths, importPath, failures')
        == Step(env, Batch(list, i, old(baseModel.data), old(ignoreSequencePaths), old(importPath), failures))
    {
      list', failures' := list, failures;
      ghost var b := Batch(list, i, baseModel.data, ignoreSequencePaths, importPath, failures);
      var path := list[i];
      var (dir, name) := SplitPath(path);
      var probed := env.probe(path);
      var mediaType := MediaTypeOf(probed.hasVideo, probed.hasAudio, probed.isImage);
      var id := env.newId(|baseModel.data|);
      var seqInfo := DetectFor(env, path);
      if seqInfo.None? {
        PlainStepSavesEntry(env, b);
        SaveFile(PlainEntry(path, mediaType, id), dir);
        return;
      }
      SequenceStepTakes(env, b, seqInfo.value);
      list', failures' := ImportSequence(env, list, i, failures, seqInfo.value);
    }

    /** The end of a turn that found sequence details `d`: check the pattern opens, drop the other frames, save the pattern. */
    method ImportSequence(env: ImportEnv, list: seq<string>, i: nat, failures: seq<string>, d: SequenceDetails)
      returns (list': seq<string>, failures': seq<string>)
      requires i < |list|
      modifies this`importPath, baseModel`data
      ensures Batch(list', i + 1, baseModel.data, ignoreSequencePaths, importPath, failures')
        == TakeSequence(env, Batch(list, i + 1, old(baseModel.data), ignoreSequencePaths, old(importPath), failures),
                        list[i], d, env.newId(|old(baseModel.data)|))
    {
      list', failures' := list, failures;
      var path := list[i];
      var (dir, name) := SplitPath(path);
      if env.probe(Join(d.folderPath, SequencePattern(d))).ProbeFailed? {
        if !env.quiet {
          failures' := failures + [name];
        }
        return;
      }
      var hits := Glob(env.fs, Join(d.folderPath, d.baseName), d.extension);
      list' := RemoveSiblingFrames(list, hits, path);
      SaveFile(SequenceEntry(d, env.newId(|baseModel.data|)), dir);
    }

    /**
     * `add_files(files, image_seq_details, quiet)` for a list of paths: the
     * loop walks the list by position while sequence imports shorten it, and
     * the skipped directories are forgotten at the end. `failures` are the
     * file names passed to `invalidImage`.
     */
    method AddFiles(files: seq<string>, env: ImportEnv) returns (failures: seq<string>)
      modifies this`ignoreSequencePaths, this`importPath, baseModel`data
      ensures var r := Run(env, Batch(files, 0, old(baseModel.data), old(ignoreSequencePaths), old(importPath), []));
        && baseModel.data == r.catalog
        && importPath == r.importPath
        && failures == r.failures
      ensures ignoreSequencePaths == []
    {
      var list := files;
      var i := 0;
      failures := [];
      ghost var init := Batch(files, 0, baseModel.data, ignoreSequencePaths, importPath, []);
      while i < |list|
        invariant Run(env, Batch(list, i, baseModel.data, ignoreSequencePaths, importPath, failures)) == Run(env, init)
        decreases |list| - i
      {
        ghost var before := Batch(list, i, baseModel.data, ignoreSequencePaths, importPath, failures);
        list, failures := ImportFile(env, list, i, failures);
        i := i + 1;
        RunUnfolds(env, before);
      }
      ignoreSequencePaths := [];
    }
  }
}
