/**
 * The batch import of `FilesManager.add_files`
 * (src/windows/models/files_model.py:373-503), stated one file at a time:
 * `Step` is one turn of the `for count, filepath in enumerate(files)` loop
 * and `Run` the whole loop. Python's list iterator reads `files[i]` by
 * position while `files.remove` shortens the list under it, and `Step` keeps
 * that: it advances the position by one whatever was removed.
 */
module ImportBatch {
  import opened Optional
  import opened Text
  import opened Decimal
  import opened PosixPath
  import opened FileTable
  import opened ImageSequences

  /** What `openshot.Clip(path)` and `is_image` report, or that probing raised. */
  datatype Probe = ProbeFailed | Probed(hasVideo: bool, hasAudio: bool, isImage: bool)

  /**
   * What the import sees of the world: the existing paths in listing order,
   * the media probe, the user's answer to the sequence prompt for a file
   * name, the id the project gives the n-th catalogue entry, the
   * `image_seq_details` argument and the `quiet` flag.
   */
  datatype ImportEnv = ImportEnv(
    fs: seq<string>,
    probe: string -> Probe,
    confirm: string -> bool,
    newId: nat -> string,
    hint: Option<SequenceDetails>,
    quiet: bool)

  /**
   * The state of the loop: the list being walked (it shrinks when sequence
   * frames are removed), the position, the project's files, the directories
   * skipped for sequence detection, the project's "import_path", and the
   * file names reported through `invalidImage`.
   */
  datatype Batch = Batch(
    files: seq<string>,
    next: nat,
    catalog: seq<FileEntry>,
    ignored: seq<string>,
    importPath: Option<string>,
    failures: seq<string>)

  const MediaTypes: set<string> := {"audio", "image", "video"}

  /** The media type chosen from the probe's flags. */
  function MediaTypeOf(hasVideo: bool, hasAudio: bool, isImage: bool): (t: string)
    ensures t in MediaTypes
  {
    if hasVideo && !isImage then "video"
    else if hasVideo && isImage then "image"
    else if hasAudio && !hasVideo then "audio"
    else "video"
  }

  /** Images are the video sources `is_image` accepts, audio is sound without video, everything else is video. */
  lemma MediaTypeCases(hasVideo: bool, hasAudio: bool, isImage: bool)
    ensures MediaTypeOf(hasVideo, hasAudio, isImage) == "image" <==> hasVideo && isImage
    ensures MediaTypeOf(hasVideo, hasAudio, isImage) == "audio" <==> !hasVideo && hasAudio
    ensures MediaTypeOf(hasVideo, hasAudio, isImage) == "video" <==> !(hasVideo && isImage) && !(!hasVideo && hasAudio)
  {
  }

  /** `File.get(path=path)` finds a file. */
  predicate InCatalog(catalog: seq<FileEntry>, path: string) {
    exists k :: 0 <= k < |catalog| && catalog[k].path == path
  }

  /** `"%d"` for free-width numbers, `"%0<digits>d"` for fixed-width ones. */
  function ZeroPattern(fixlen: bool, digits: nat): string {
    if !fixlen then "%d" else "%0" + NatToString(digits) + "d"
  }

  /** The printf-style name of a sequence: base, number directive, '.', extension. */
  function SequencePattern(d: SequenceDetails): string {
    d.baseName + ZeroPattern(d.fixlen, d.digits) + "." + d.extension
  }

  /** How a reader expands a `%d` or `%0Nd` directive for frame `x`. */
  function FormatFrame(directive: string, x: nat): Option<string> {
    if directive == "%d" then Some(NatToString(x))
    else if |directive| >= 4 && directive[..2] == "%0" && directive[|directive| - 1] == 'd'
      && AllDigits(directive[2..|directive| - 1])
    then Some(RJust(NatToString(x), ParseNat(directive[2..|directive| - 1]), '0'))
    else None
  }

  /** The directive writes frame numbers exactly as the detector spelled them when it looked for neighbours. */
  lemma FormatZeroPattern(fixlen: bool, digits: nat, x: nat)
    ensures FormatFrame(ZeroPattern(fixlen, digits), x)
      == Some(if fixlen then RJust(NatToString(x), digits, '0') else NatToString(x))
  {
    if fixlen {
      var z := ZeroPattern(fixlen, digits);
      assert z[..2] == "%0";
      assert z[2..|z| - 1] == NatToString(digits);
      ParseNatToString(digits);
    }
  }

  lemma JoinAppend(a: string, b: string, c: string)
    requires c == [] || c[0] != '/'
    ensures Join(a, b + c) == Join(a, b) + c
  {
    if b == [] {
      assert b + c == c;
      assert !StartsWith(c, "/");
    } else {
      assert StartsWith(b + c, "/") <==> StartsWith(b, "/") by {
        assert (b + c)[0] == b[0];
      }
    }
  }

  /**
   * Frame `x` of the pattern written into the catalogue is the file the
   * detector checks for frame `x`: the pattern names the frames that made
   * the sequence.
   */
  lemma PatternNamesFrames(d: SequenceDetails, x: nat)
    ensures var frame := FormatFrame(ZeroPattern(d.fixlen, d.digits), x);
      && frame.Some?
      && Join(d.folderPath, d.baseName + frame.value + "." + d.extension)
        == FramePath(Join(d.folderPath, d.baseName), x, d.digits, d.fixlen, d.extension)
  {
    FormatZeroPattern(d.fixlen, d.digits, x);
    var number := if d.fixlen then RJust(NatToString(x), d.digits, '0') else NatToString(x);
    assert number[0] == '0' || IsDigit(number[0]) by {
      if d.fixlen && |NatToString(x)| < d.digits {
        assert number[..|number| - |NatToString(x)|][0] == number[0];
      }
    }
    var frame := FormatFrame(ZeroPattern(d.fixlen, d.digits), x).value;
    assert frame == number;
    var tail := number + "." + d.extension;
    assert tail[0] == number[0];
    JoinAppend(d.folderPath, d.baseName, tail);
    Regroup(d.baseName, number, d.extension);
    Regroup(Join(d.folderPath, d.baseName), number, d.extension);
  }

  lemma Regroup(a: string, n: string, e: string)
    ensures a + n + "." + e == a + (n + "." + e)
  {
  }

  /** `p` matches the glob `fullBase + "[0-9]*." + ext`: a digit, then anything but '/', then the extension. */
  predicate MatchesStarGlob(p: string, fullBase: string, ext: string) {
    && |p| >= |fullBase| + 2 + |ext|
    && p[..|fullBase|] == fullBase
    && IsDigit(p[|fullBase|])
    && p[|p| - |ext| - 1..] == "." + ext
    && '/' !in p[|fullBase|..|p| - |ext| - 1]
  }

  /** `glob.iglob(...)`: the listed paths that match, in listing order. */
  function Glob(fs: seq<string>, fullBase: string, ext: string): (hits: seq<string>)
    ensures forall p :: p in hits <==> p in fs && MatchesStarGlob(p, fullBase, ext)
  {
    if fs == [] then []
    else
      var rest := Glob(fs[1..], fullBase, ext);
      assert forall p :: p in fs <==> p == fs[0] || p in fs[1..];
      if MatchesStarGlob(fs[0], fullBase, ext) then [fs[0]] + rest else rest
  }

  /** Every frame the detector can find is caught by the removal glob. */
  lemma FramesMatchRemovalGlob(fullBase: string, x: nat, digits: nat, fixlen: bool, ext: string)
    requires '/' !in ext
    ensures MatchesStarGlob(FramePath(fullBase, x, digits, fixlen, ext), fullBase, ext)
  {
    var number := if fixlen then RJust(NatToString(x), digits, '0') else NatToString(x);
    var p := FramePath(fullBase, x, digits, fixlen, ext);
    assert AllDigits(number) by {
      if fixlen {
        forall i | 0 <= i < |number| ensures IsDigit(number[i]) {
          var pad := |number| - |NatToString(x)|;
          if i < pad {
            assert number[..pad][i] == number[i];
          } else {
            assert number[pad..][i - pad] == number[i];
          }
        }
      }
    }
    assert p == fullBase + number + ("." + ext);
    assert p[|fullBase|] == number[0];
    assert p[|fullBase|..|p| - |ext| - 1] == number;
    forall i | 0 <= i < |number| ensures number[i] != '/' {
      assert IsDigit(number[i]);
    }
  }

  /** `files` without its first `x`, as `list.remove` does. */
  function RemoveFirst(files: seq<string>, x: string): (r: seq<string>)
    ensures multiset(r) == multiset(files) - multiset{x}
    ensures |r| == if x in files then |files| - 1 else |files|
  {
    if files == [] then []
    else if files[0] == x then
      assert files == [x] + files[1..];
      files[1..]
    else
      assert files == [files[0]] + files[1..];
      [files[0]] + RemoveFirst(files[1..], x)
  }

  /** One turn of the removal loop: a hit that is in the list and is not the file being imported goes. */
  function DropHit(files: seq<string>, hit: string, current: string): seq<string> {
    if hit in files && hit != current then RemoveFirst(files, hit) else files
  }

  /** The list after every hit has had its turn, in glob order. */
  function RemoveFrames(files: seq<string>, hits: seq<string>, current: string): (r: seq<string>)
    ensures |r| <= |files|
    ensures multiset(r)[current] == multiset(files)[current]
    decreases |hits|
  {
    if hits == [] then files
    else
      var once := DropHit(files, hits[0], current);
      assert |once| <= |files| && multiset(once)[current] == multiset(files)[current];
      RemoveFrames(once, hits[1..], current)
  }

  /** Removing the hits never changes how often a path that is not a hit occurs. */
  lemma {:induction false} RemoveFramesKeeps(files: seq<string>, hits: seq<string>, current: string, x: string)
    requires x !in hits
    ensures multiset(RemoveFrames(files, hits, current))[x] == multiset(files)[x]
    decreases |hits|
  {
    if hits != [] {
      assert x != hits[0] && x !in hits[1..];
      RemoveFramesKeeps(DropHit(files, hits[0], current), hits[1..], current, x);
    }
  }

  /** Removing the hits never adds a path. */
  lemma {:induction false} RemoveFramesShrinks(files: seq<string>, hits: seq<string>, current: string, x: string)
    ensures multiset(RemoveFrames(files, hits, current))[x] <= multiset(files)[x]
    decreases |hits|
  {
    if hits != [] {
      RemoveFramesShrinks(DropHit(files, hits[0], current), hits[1..], current, x);
    }
  }

  /**
   * The removal as evidently intended: only the positions the loop has not
   * reached yet lose their frames, so the list up to the current file keeps
   * its shape and the position after it is the next unvisited file.
   */
  function RemoveLaterFrames(files: seq<string>, at: nat, hits: seq<string>): seq<string>
    requires at < |files|
  {
    files[..at + 1] + RemoveFrames(files[at + 1..], hits, files[at])
  }

  /**
   * With the intended removal the visited part of the list is untouched,
   * every unvisited file that is not a frame of the sequence is still ahead
   * of the loop, and nothing new appears there.
   */
  lemma LaterFramesRemovalKeepsUnvisited(files: seq<string>, at: nat, hits: seq<string>, x: string)
    requires at < |files|
    ensures var r := RemoveLaterFrames(files, at, hits);
      && |r| > at && r[..at + 1] == files[..at + 1]
      && (x in files[at + 1..] && x !in hits ==> x in r[at + 1..])
      && (x in r[at + 1..] ==> x in files[at + 1..])
  {
    var r := RemoveLaterFrames(files, at, hits);
    var rest := RemoveFrames(files[at + 1..], hits, files[at]);
    assert r[..at + 1] == files[..at + 1] && r[at + 1..] == rest;
    if x !in hits {
      RemoveFramesKeeps(files[at + 1..], hits, files[at], x);
    }
    RemoveFramesShrinks(files[at + 1..], hits, files[at], x);
  }

  /** In the list where the code as written loses "d/clip.mp4", the intended removal keeps it at the next position. */
  lemma ExampleLaterRemoval(files: seq<string>, hits: seq<string>)
    requires files == ["d/img001.png", "d/img002.png", "d/clip.mp4"]
    requires hits == ["d/img001.png", "d/img002.png"]
    ensures RemoveLaterFrames(files, 1, hits) == files
    ensures RemoveLaterFrames(files, 1, hits)[2] == "d/clip.mp4"
  {
    var later := files[2..];
    assert later == ["d/clip.mp4"];
    assert DropHit(later, hits[0], files[1]) == later;
    assert hits[1..][0] == "d/img002.png" && hits[1..][1..] == [];
    assert DropHit(later, hits[1..][0], files[1]) == later;
    assert RemoveFrames(later, hits[1..][1..], files[1]) == later;
    assert RemoveFrames(later, hits[1..], files[1]) == later;
    assert RemoveFrames(later, hits, files[1]) == later;
    assert files[..2] + later == files;
  }

  /** `files` without the entries of `drop`, `current` excepted. */
  function Without(files: seq<string>, drop: seq<string>, current: string): (r: seq<string>)
    ensures forall x :: x in r <==> x in files && (x == current || x !in drop)
  {
    if files == [] then []
    else
      var rest := Without(files[1..], drop, current);
      assert forall x :: x in files <==> x == files[0] || x in files[1..];
      if files[0] != current && files[0] in drop then rest else [files[0]] + rest
  }

  lemma DropHitDistinct(files: seq<string>, hit: string, current: string)
    requires NoRepeats(files)
    ensures DropHit(files, hit, current) == Without(files, [hit], current)
    ensures NoRepeats(DropHit(files, hit, current))
  {
    DropHitIsWithout(files, hit, current);
    NoRepeatsWithout(files, [hit], current);
  }

  lemma {:induction false} DropHitIsWithout(files: seq<string>, hit: string, current: string)
    requires NoRepeats(files)
    ensures DropHit(files, hit, current) == Without(files, [hit], current)
    decreases |files|
  {
    if files != [] {
      NoRepeatsTail(files);
      DropHitIsWithout(files[1..], hit, current);
      if hit == current || hit !in files {
        assert hit == current || hit !in files[1..];
      } else if files[0] == hit {
        assert DropHit(files, hit, current) == files[1..];
      } else {
        assert hit in files[1..] by {
          var k :| 0 <= k < |files| && files[k] == hit;
          assert files[1..][k - 1] == hit;
        }
        assert RemoveFirst(files, hit) == [files[0]] + RemoveFirst(files[1..], hit);
      }
    }
  }

  /** A list without repeats keeps none in its tail, and its head does not reappear there. */
  lemma NoRepeatsTail(files: seq<string>)
    requires NoRepeats(files) && files != []
    ensures NoRepeats(files[1..]) && files[0] !in files[1..]
  {
    forall i, j | 0 <= i < j < |files[1..]| ensures files[1..][i] != files[1..][j] {
      assert files[1..][i] == files[i + 1] && files[1..][j] == files[j + 1];
    }
    forall k | 0 <= k < |files[1..]| ensures files[1..][k] != files[0] {
      assert files[1..][k] == files[k + 1];
    }
  }

  lemma {:induction false} WithoutAbsent(files: seq<string>, drop: seq<string>, current: string)
    requires forall x :: x in files ==> x == current || x !in drop
    ensures Without(files, drop, current) == files
    decreases |files|
  {
    if files != [] {
      WithoutAbsent(files[1..], drop, current);
    }
  }

  lemma {:induction false} NoRepeatsWithout(files: seq<string>, drop: seq<string>, current: string)
    requires NoRepeats(files)
    ensures NoRepeats(Without(files, drop, current))
    decreases |files|
  {
    if files != [] {
      NoRepeatsTail(files);
      NoRepeatsWithout(files[1..], drop, current);
    }
  }

  lemma {:induction false} WithoutTwice(files: seq<string>, a: seq<string>, b: seq<string>, current: string)
    ensures Without(Without(files, a, current), b, current) == Without(files, a + b, current)
    decreases |files|
  {
    if files != [] {
      WithoutTwice(files[1..], a, b, current);
      assert files[0] in a + b <==> files[0] in a || files[0] in b;
    }
  }

  predicate NoRepeats(xs: seq<string>) {
    forall i, j :: 0 <= i < j < |xs| ==> xs[i] != xs[j]
  }

  /**
   * With no path listed twice, the removal loop takes out exactly the hits
   * other than the current file, whatever order the glob lists them in.
   */
  lemma {:induction false} RemoveFramesDistinct(files: seq<string>, hits: seq<string>, current: string)
    requires NoRepeats(files)
    ensures RemoveFrames(files, hits, current) == Without(files, hits, current)
    decreases |hits|
  {
    if hits == [] {
      WithoutAbsent(files, hits, current);
    } else {
      var once := DropHit(files, hits[0], current);
      DropHitDistinct(files, hits[0], current);
      RemoveFramesDistinct(once, hits[1..], current);
      WithoutTwice(files, [hits[0]], hits[1..], current);
      assert [hits[0]] + hits[1..] == hits;
    }
  }

  /** The sequence details one file gets: the argument when one was passed, else the detector's answer. */
  function DetectionFor(env: ImportEnv, ignored: seq<string>, path: string): Detection {
    if env.hint.Some? then Detection(ignored, env.hint)
    else DetectSequence(ignored, env.fs, path, env.confirm(SplitPath(path).1))
  }

  /** `new_file.save()`, then the "import_path" update. */
  function Save(b: Batch, e: FileEntry, dir: string): Batch {
    b.(catalog := b.catalog + [e], importPath := if Some(dir) != b.importPath then Some(dir) else b.importPath)
  }

  /** The `except` branch: a message box names the file unless the import is quiet. */
  function Fail(b: Batch, name: string, quiet: bool): Batch {
    if quiet then b else b.(failures := b.failures + [name])
  }

  /** The entry a plain (non-sequence) import saves. */
  function PlainEntry(path: string, mediaType: string, id: string): FileEntry {
    FileEntry(path, map["media_type" := mediaType, "id" := id], None)
  }

  /** The entry a sequence import saves: the pattern path, forced to video, named after the folder when there is no base. */
  function SequenceEntry(d: SequenceDetails, id: string): FileEntry {
    var pattern := SequencePattern(d);
    var named := if d.baseName == "" then map["name" := Basename(d.folderPath) + " (" + pattern + ")"] else map[];
    FileEntry(Join(d.folderPath, pattern), map["media_type" := "video", "id" := id] + named, None)
  }

  /** One turn of the loop, at position `b.next`. */
  function Step(env: ImportEnv, b: Batch): (r: Batch)
    requires b.next < |b.files|
    ensures r.next == b.next + 1 && |r.files| <= |b.files|
    ensures r.catalog == b.catalog || (|r.catalog| == |b.catalog| + 1 && r.catalog[..|b.catalog|] == b.catalog)
  {
    var path := b.files[b.next];
    var (dir, name) := SplitPath(path);
    var skip := b.(next := b.next + 1);
    if InCatalog(b.catalog, path) then skip
    else match env.probe(path)
      case ProbeFailed => Fail(skip, name, env.quiet)
      case Probed(hasVideo, hasAudio, isImage) =>
        var id := env.newId(|b.catalog|);
        var detection := DetectionFor(env, b.ignored, path);
        var marked := skip.(ignored := detection.ignored);
        match detection.details
        case None =>
          Save(marked, PlainEntry(path, MediaTypeOf(hasVideo, hasAudio, isImage), id), dir)
        case Some(d) => TakeSequence(env, marked, path, d, id)
  }

  /**
   * The end of a turn that found sequence details `d`, with `marked` the
   * batch already past the file: a pattern the reader cannot open is
   * reported, otherwise the other frames leave the list and the pattern is
   * saved.
   */
  function TakeSequence(env: ImportEnv, marked: Batch, path: string, d: SequenceDetails, id: string): Batch {
    var (dir, name) := SplitPath(path);
    if env.probe(Join(d.folderPath, SequencePattern(d))).ProbeFailed? then Fail(marked, name, env.quiet)
    else
      var hits := Glob(env.fs, Join(d.folderPath, d.baseName), d.extension);
      Save(marked.(files := RemoveFrames(marked.files, hits, path)), SequenceEntry(d, id), dir)
  }

  /** The loop from position `b.next` to the end of the (shrinking) list. */
  ghost function Run(env: ImportEnv, b: Batch): (r: Batch)
    decreases |b.files| - b.next
  {
    if b.next >= |b.files| then b else Run(env, Step(env, b))
  }

  lemma RunUnfolds(env: ImportEnv, b: Batch)
    ensures b.next >= |b.files| ==> Run(env, b) == b
    ensures b.next < |b.files| ==> Run(env, b) == Run(env, Step(env, b))
  {
  }

  /** The project's files only grow, by appending, and by at most one entry per file looked at. */
  lemma {:induction false} RunAppendsOnly(env: ImportEnv, b: Batch)
    ensures |b.catalog| <= |Run(env, b).catalog|
    ensures Run(env, b).catalog[..|b.catalog|] == b.catalog
    ensures |Run(env, b).catalog| - |b.catalog| <= if b.next < |b.files| then |b.files| - b.next else 0
    decreases |b.files| - b.next
  {
    if b.next < |b.files| {
      var s := Step(env, b);
      RunAppendsOnly(env, s);
      assert Run(env, s).catalog[..|s.catalog|][..|b.catalog|] == Run(env, s).catalog[..|b.catalog|];
    }
  }

  predicate TypedEntries(catalog: seq<FileEntry>, from: nat) {
    forall k :: from <= k < |catalog| ==> catalog[k].Get("media_type").Some? && catalog[k].Get("media_type").value in MediaTypes
  }

  /** The entry a step saves carries one of the three media types. */
  lemma StepTypesEntry(env: ImportEnv, b: Batch)
    requires b.next < |b.files|
    requires Step(env, b).catalog != b.catalog
    ensures var e := Step(env, b).catalog[|b.catalog|];
      e.Get("media_type").Some? && e.Get("media_type").value in MediaTypes
  {
    var path := b.files[b.next];
    var e := Step(env, b).catalog[|b.catalog|];
    var p := env.probe(path);
    var d := DetectionFor(env, b.ignored, path).details;
    if d.Some? {
      assert e == SequenceEntry(d.value, env.newId(|b.catalog|));
      assert "media_type" != "name";
    } else {
      assert e == PlainEntry(path, MediaTypeOf(p.hasVideo, p.hasAudio, p.isImage), env.newId(|b.catalog|));
    }
  }

  /** Every file an import adds carries one of the three media types. */
  lemma {:induction false} RunTypesEntries(env: ImportEnv, b: Batch, from: nat)
    requires from <= |b.catalog| && TypedEntries(b.catalog, from)
    ensures TypedEntries(Run(env, b).catalog, from)
    decreases |b.files| - b.next
  {
    if b.next < |b.files| {
      var s := Step(env, b);
      if s.catalog != b.catalog {
        StepTypesEntry(env, b);
        assert forall k :: from <= k < |b.catalog| ==> s.catalog[k] == b.catalog[k];
      }
      RunTypesEntries(env, s, from);
    }
  }

  /** A path already in the project is passed over without being probed. */
  lemma CataloguedPathSkipped(env: ImportEnv, b: Batch)
    requires b.next < |b.files| && InCatalog(b.catalog, b.files[b.next])
    ensures Step(env, b) == b.(next := b.next + 1)
  {
  }

  /** A file the probe rejects adds nothing and the loop goes on; it is reported unless the import is quiet. */
  lemma FailedProbeContinues(env: ImportEnv, b: Batch)
    requires b.next < |b.files| && !InCatalog(b.catalog, b.files[b.next])
    requires env.probe(b.files[b.next]).ProbeFailed?
    ensures var r := Step(env, b);
      && r.catalog == b.catalog && r.files == b.files && r.next == b.next + 1
      && r.failures == (if env.quiet then b.failures else b.failures + [SplitPath(b.files[b.next]).1])
  {
  }

  /**
   * A file taken as a sequence saves one entry whose path is the pattern,
   * typed video, named after the folder exactly when there is no base.
   */
  lemma SequenceStepSaves(env: ImportEnv, b: Batch, d: SequenceDetails)
    requires b.next < |b.files| && !InCatalog(b.catalog, b.files[b.next])
    requires env.probe(b.files[b.next]).Probed?
    requires DetectionFor(env, b.ignored, b.files[b.next]).details == Some(d)
    requires env.probe(Join(d.folderPath, SequencePattern(d))).Probed?
    ensures var r := Step(env, b);
      && |r.catalog| == |b.catalog| + 1
      && var e := r.catalog[|b.catalog|];
      && r.catalog == b.catalog + [e]
      && e.path == Join(d.folderPath, SequencePattern(d))
      && e.Get("media_type") == Some("video")
      && ("name" in e.fields <==> d.baseName == "")
      && (d.baseName == "" ==> e.fields["name"] == Basename(d.folderPath) + " (" + SequencePattern(d) + ")")
  {
    var e := SequenceEntry(d, env.newId(|b.catalog|));
    SequenceStepIs(env, b, d);
    SequenceEntryFields(d, env.newId(|b.catalog|));
  }

  /** A step that takes a sequence: the frames leave the list and the pattern entry is saved. */
  lemma SequenceStepIs(env: ImportEnv, b: Batch, d: SequenceDetails)
    requires b.next < |b.files| && !InCatalog(b.catalog, b.files[b.next])
    requires env.probe(b.files[b.next]).Probed?
    requires DetectionFor(env, b.ignored, b.files[b.next]).details == Some(d)
    requires env.probe(Join(d.folderPath, SequencePattern(d))).Probed?
    ensures var path := b.files[b.next];
      var marked := b.(next := b.next + 1, ignored := DetectionFor(env, b.ignored, path).ignored);
      var hits := Glob(env.fs, Join(d.folderPath, d.baseName), d.extension);
      Step(env, b) == Save(marked.(files := RemoveFrames(b.files, hits, path)), SequenceEntry(d, env.newId(|b.catalog|)), SplitPath(path).0)
  {
  }

  /** A step that finds sequence details ends as `TakeSequence` says. */
  lemma SequenceStepTakes(env: ImportEnv, b: Batch, d: SequenceDetails)
    requires b.next < |b.files| && !InCatalog(b.catalog, b.files[b.next])
    requires env.probe(b.files[b.next]).Probed?
    requires DetectionFor(env, b.ignored, b.files[b.next]).details == Some(d)
    ensures var path := b.files[b.next];
      var marked := b.(next := b.next + 1, ignored := DetectionFor(env, b.ignored, path).ignored);
      Step(env, b) == TakeSequence(env, marked, path, d, env.newId(|b.catalog|))
  {
  }

  /** A step that finds no sequence saves the plain entry typed from the probe. */
  lemma PlainStepSavesEntry(env: ImportEnv, b: Batch)
    requires b.next < |b.files| && !InCatalog(b.catalog, b.files[b.next])
    requires env.probe(b.files[b.next]).Probed?
    requires DetectionFor(env, b.ignored, b.files[b.next]).details.None?
    ensures var path := b.files[b.next];
      var p := env.probe(path);
      var marked := b.(next := b.next + 1, ignored := DetectionFor(env, b.ignored, path).ignored);
      Step(env, b) == Save(marked, PlainEntry(path, MediaTypeOf(p.hasVideo, p.hasAudio, p.isImage), env.newId(|b.catalog|)), SplitPath(path).0)
  {
  }

  /**
   * A file that is no sequence saves one entry at its own path, typed from the probe,
   * with the next id and no other field; the list stays, and the import path becomes its directory.
   */
  lemma PlainStepSaves(env: ImportEnv, b: Batch)
    requires b.next < |b.files| && !InCatalog(b.catalog, b.files[b.next])
    requires env.probe(b.files[b.next]).Probed?
    requires DetectionFor(env, b.ignored, b.files[b.next]).details.None?
    ensures var path := b.files[b.next];
      var p := env.probe(path);
      var r := Step(env, b);
      && |r.catalog| == |b.catalog| + 1
      && var e := r.catalog[|b.catalog|];
      && r.catalog == b.catalog + [e]
      && e.path == path
      && e.Get("media_type") == Some(MediaTypeOf(p.hasVideo, p.hasAudio, p.isImage))
      && e.Id() == Some(env.newId(|b.catalog|))
      && e.fields.Keys == {"media_type", "id"}
      && r.files == b.files && r.next == b.next + 1
      && r.ignored == DetectionFor(env, b.ignored, path).ignored
      && r.importPath == Some(SplitPath(path).0)
      && r.failures == b.failures
  {
    var path := b.files[b.next];
    var p := env.probe(path);
    var e := PlainEntry(path, MediaTypeOf(p.hasVideo, p.hasAudio, p.isImage), env.newId(|b.catalog|));
    PlainStepSavesEntry(env, b);
    assert e.fields.Keys == {"media_type", "id"};
  }

  /**
   * A sequence whose pattern the reader cannot open is reported like a failed file:
   * nothing is saved, the list and the import path stay, and only the directory is remembered.
   */
  lemma PatternProbeFails(env: ImportEnv, b: Batch, d: SequenceDetails)
    requires b.next < |b.files| && !InCatalog(b.catalog, b.files[b.next])
    requires env.probe(b.files[b.next]).Probed?
    requires DetectionFor(env, b.ignored, b.files[b.next]).details == Some(d)
    requires env.probe(Join(d.folderPath, SequencePattern(d))).ProbeFailed?
    ensures var path := b.files[b.next];
      var r := Step(env, b);
      && r.catalog == b.catalog && r.files == b.files && r.next == b.next + 1
      && r.importPath == b.importPath
      && r.ignored == DetectionFor(env, b.ignored, path).ignored
      && r.failures == (if env.quiet then b.failures else b.failures + [SplitPath(path).1])
  {
    SequenceStepTakes(env, b, d);
  }

  /** The fields of a sequence entry: typed video, named after the folder exactly when there is no base. */
  lemma SequenceEntryFields(d: SequenceDetails, id: string)
    ensures var e := SequenceEntry(d, id);
      && e.path == Join(d.folderPath, SequencePattern(d))
      && e.Get("media_type") == Some("video")
      && ("name" in e.fields <==> d.baseName == "")
      && (d.baseName == "" ==> e.fields["name"] == Basename(d.folderPath) + " (" + SequencePattern(d) + ")")
  {
    var title := Basename(d.folderPath) + " (" + SequencePattern(d) + ")";
    var named := if d.baseName == "" then map["name" := title] else map[];
    assert SequenceEntry(d, id).fields == map["media_type" := "video", "id" := id] + named;
    EntryFieldsShape(id, named, title);
  }

  lemma EntryFieldsShape(id: string, named: map<string, string>, title: string)
    requires named == map[] || named == map["name" := title]
    ensures var fields := map["media_type" := "video", "id" := id] + named;
      && "media_type" in fields && fields["media_type"] == "video"
      && ("name" in fields <==> named != map[])
      && (named != map[] ==> fields["name"] == title)
  {
    assert "media_type" != "name" && "id" != "name";
    if named != map[] {
      assert "name" in named;
    }
  }

  /**
   * After a sequence is taken, the list still holds the current file and,
   * when no path repeats, none of the other frames the glob lists.
   */
  lemma SequenceStepRemovesFrames(env: ImportEnv, b: Batch, d: SequenceDetails)
    requires b.next < |b.files| && !InCatalog(b.catalog, b.files[b.next])
    requires env.probe(b.files[b.next]).Probed?
    requires DetectionFor(env, b.ignored, b.files[b.next]).details == Some(d)
    requires env.probe(Join(d.folderPath, SequencePattern(d))).Probed?
    ensures var r := Step(env, b);
      var path := b.files[b.next];
      && r.files == RemoveFrames(b.files, Glob(env.fs, Join(d.folderPath, d.baseName), d.extension), path)
      && path in r.files
      && (NoRepeats(b.files) ==> forall p :: p in Glob(env.fs, Join(d.folderPath, d.baseName), d.extension) && p != path ==> p !in r.files)
  {
    var path := b.files[b.next];
    var hits := Glob(env.fs, Join(d.folderPath, d.baseName), d.extension);
    var r := Step(env, b);
    SequenceStepIs(env, b, d);
    assert r.files == RemoveFrames(b.files, hits, path);
    assert multiset(b.files)[path] > 0;
    assert multiset(r.files)[path] > 0;
    if NoRepeats(b.files) {
      RemoveFramesDistinct(b.files, hits, path);
    }
  }

  /** How many of `files` are not in the project yet. */
  function CountNew(files: seq<string>, catalog: seq<FileEntry>): nat {
    if files == [] then 0
    else (if InCatalog(catalog, files[0]) then 0 else 1) + CountNew(files[1..], catalog)
  }

  lemma {:induction false} CountNewUnaffected(files: seq<string>, catalog: seq<FileEntry>, e: FileEntry)
    requires e.path !in files
    ensures CountNew(files, catalog + [e]) == CountNew(files, catalog)
    decreases |files|
  {
    if files != [] {
      assert InCatalog(catalog + [e], files[0]) == InCatalog(catalog, files[0]) by {
        if InCatalog(catalog, files[0]) {
          var k :| 0 <= k < |catalog| && catalog[k].path == files[0];
          assert (catalog + [e])[k] == catalog[k];
        }
        if InCatalog(catalog + [e], files[0]) {
          var k :| 0 <= k < |catalog + [e]| && (catalog + [e])[k].path == files[0];
          assert k < |catalog|;
          assert catalog[k] == (catalog + [e])[k];
        }
      }
      CountNewUnaffected(files[1..], catalog, e);
    }
  }

  /**
   * With every probe succeeding and no sequence accepted, an import of
   * distinct paths adds exactly one file per path not already in the
   * project.
   */
  lemma {:induction false} RunCountsNewFiles(env: ImportEnv, b: Batch)
    requires env.hint.None?
    requires forall n :: !env.confirm(n)
    requires forall p :: env.probe(p).Probed?
    requires b.next <= |b.files| && NoRepeats(b.files)
    ensures |Run(env, b).catalog| == |b.catalog| + CountNew(b.files[b.next..], b.catalog)
    decreases |b.files| - b.next
  {
    if b.next < |b.files| {
      var path := b.files[b.next];
      var rest := b.files[b.next + 1..];
      PlainStepIs(env, b);
      var s := Step(env, b);
      NextNotRepeated(b.files, b.next);
      if !InCatalog(b.catalog, path) {
        CountNewUnaffected(rest, b.catalog, s.catalog[|b.catalog|]);
      }
      RunCountsNewFiles(env, s);
      RunUnfolds(env, b);
    } else {
      assert b.files[b.next..] == [];
    }
  }

  /** A step with no sequence details and a successful probe keeps the list and saves a plain entry for a new path. */
  lemma PlainStepIs(env: ImportEnv, b: Batch)
    requires b.next < |b.files|
    requires env.hint.None? && !env.confirm(SplitPath(b.files[b.next]).1) && env.probe(b.files[b.next]).Probed?
    ensures var s := Step(env, b);
      && s.files == b.files && s.next == b.next + 1
      && (InCatalog(b.catalog, b.files[b.next]) ==> s.catalog == b.catalog)
      && (!InCatalog(b.catalog, b.files[b.next]) ==>
            |s.catalog| == |b.catalog| + 1 && s.catalog == b.catalog + [s.catalog[|b.catalog|]]
            && s.catalog[|b.catalog|].path == b.files[b.next])
  {
    var path := b.files[b.next];
    assert DetectionFor(env, b.ignored, path).details.None?;
  }

  lemma NextNotRepeated(files: seq<string>, i: nat)
    requires i < |files| && NoRepeats(files)
    ensures files[i..] == [files[i]] + files[i + 1..]
    ensures files[i] !in files[i + 1..]
  {
    var rest := files[i + 1..];
    forall k | 0 <= k < |rest| ensures rest[k] != files[i] {
      assert rest[k] == files[i + 1 + k];
    }
  }

  lemma ExampleJoin()
    ensures Join("d", "img") == "d/img"
  {
    assert "img"[..1][0] != "/"[0];
    assert "d"[0..][0] != "/"[0];
  }

  lemma ExampleGlob(fs: seq<string>)
    requires fs == ["d/img001.png", "d/img002.png", "d/clip.mp4"]
    ensures Glob(fs, "d/img", "png") == ["d/img001.png", "d/img002.png"]
  {
    ExampleGlobMatches();
    assert fs[0] == "d/img001.png" && fs[1..][0] == "d/img002.png";
    assert fs[1..][1..] == ["d/clip.mp4"] && fs[1..][1..][0] == "d/clip.mp4";
    assert fs[1..][1..][1..] == [];
    assert Glob(fs[1..][1..], "d/img", "png") == [];
    assert Glob(fs[1..], "d/img", "png") == ["d/img002.png"];
  }

  lemma ExampleGlobMatches()
    ensures MatchesStarGlob("d/img001.png", "d/img", "png")
    ensures MatchesStarGlob("d/img002.png", "d/img", "png")
    ensures !MatchesStarGlob("d/clip.mp4", "d/img", "png")
  {
    assert "d/img001.png"[..5] == "d/img";
    assert "d/img001.png"[8..] == ".png";
    assert "d/img001.png"[5..8] == "001";
    assert "d/img002.png"[..5] == "d/img";
    assert "d/img002.png"[8..] == ".png";
    assert "d/img002.png"[5..8] == "002";
    assert "d/clip.mp4"[..5][2] != "d/img"[2];
  }

  lemma ExampleRemoval(files: seq<string>, hits: seq<string>)
    requires files == ["d/img001.png", "d/img002.png", "d/clip.mp4"]
    requires hits == ["d/img001.png", "d/img002.png"]
    ensures RemoveFrames(files, hits, "d/img002.png") == ["d/img002.png", "d/clip.mp4"]
  {
    var once := ["d/img002.png", "d/clip.mp4"];
    assert files[0] == hits[0] && files[1..] == once;
    assert DropHit(files, hits[0], "d/img002.png") == once;
    assert hits[1..] == ["d/img002.png"] && hits[1..][0] == "d/img002.png";
    assert hits[1..][1..] == [];
    assert RemoveFrames(once, hits[1..], "d/img002.png") == RemoveFrames(once, hits[1..][1..], "d/img002.png");
  }

  /** A sequence is saved under its pattern, so its path keeps the frames' extension. */
  lemma SequenceEntryExtension(d: SequenceDetails, id: string)
    ensures EndsWith(SequenceEntry(d, id).path, "." + d.extension)
  {
    var pattern := SequencePattern(d);
    var suffix := "." + d.extension;
    assert pattern == d.baseName + ZeroPattern(d.fixlen, d.digits) + suffix;
    EndsWithAppended(d.baseName + ZeroPattern(d.fixlen, d.digits), suffix);
    JoinEndsWithName(d.folderPath, pattern);
    EndsWithTransitive(Join(d.folderPath, pattern), pattern, suffix);
  }

  lemma EndsWithAppended(a: string, b: string)
    ensures EndsWith(a + b, b)
  {
    assert (a + b)[|a|..] == b;
  }

  lemma JoinEndsWithName(dir: string, name: string)
    ensures EndsWith(Join(dir, name), name)
  {
    if !StartsWith(name, "/") {
      if dir == [] || EndsWith(dir, "/") {
        EndsWithAppended(dir, name);
      } else {
        assert dir + "/" + name == (dir + "/") + name;
        EndsWithAppended(dir + "/", name);
      }
    }
  }

  lemma EndsWithTransitive(s: string, t: string, u: string)
    requires EndsWith(s, t) && EndsWith(t, u)
    ensures EndsWith(s, u)
  {
    assert s[|s| - |u|..] == s[|s| - |t|..][|t| - |u|..];
  }

  /** The example's first turn: `d/img001.png` is already in the project and is skipped. */
  lemma ExampleFirstStep(env: ImportEnv, b: Batch)
    requires b.files == ["d/img001.png", "d/img002.png", "d/clip.mp4"] && b.next == 0
    requires b.catalog == [FileEntry("d/img001.png", map[], None)]
    ensures Step(env, b) == b.(next := 1)
    ensures Run(env, b) == Run(env, b.(next := 1))
  {
    assert b.catalog[0].path == "d/img001.png";
    RunUnfolds(env, b);
  }

  /** The example's second turn: `d/img002.png` is imported as a sequence and `d/img001.png` leaves the list. */
  lemma ExampleSecondStep(env: ImportEnv, b: Batch)
    requires env.hint == Some(SequenceDetails("d", "img", true, 3, "png"))
    requires env.fs == ["d/img001.png", "d/img002.png", "d/clip.mp4"]
    requires forall p :: env.probe(p).Probed?
    requires b.files == ["d/img001.png", "d/img002.png", "d/clip.mp4"] && b.next == 1
    requires b.catalog == [FileEntry("d/img001.png", map[], None)]
    ensures var r := Step(env, b);
      && r.files == ["d/img002.png", "d/clip.mp4"] && r.next == 2
      && r.catalog == b.catalog + [SequenceEntry(env.hint.value, env.newId(1))]
  {
    var path := b.files[1];
    assert path == "d/img002.png";
    assert !InCatalog(b.catalog, path) by {
      assert b.catalog[0].path != path;
    }
    var d := env.hint.value;
    assert DetectionFor(env, b.ignored, path) == Detection(b.ignored, Some(d));
    assert env.probe(Join(d.folderPath, SequencePattern(d))).Probed?;
    SequenceStepIs(env, b, d);
    ExampleJoin();
    ExampleGlob(env.fs);
    ExampleRemoval(b.files, ["d/img001.png", "d/img002.png"]);
  }

  /**
   * Removing frames that sit before the current position shifts the rest of
   * the list under the loop: with `d/img001.png` already in the project,
   * importing `[d/img001.png, d/img002.png, d/clip.mp4]` as a sequence
   * removes `d/img001.png` while at position 1, so `d/clip.mp4` moves to
   * position 1 and the loop, now at position 2, ends without importing it.
   */
  lemma EarlierFrameRemovalSkipsNextFile(env: ImportEnv, b: Batch)
    requires env.hint == Some(SequenceDetails("d", "img", true, 3, "png"))
    requires env.fs == ["d/img001.png", "d/img002.png", "d/clip.mp4"]
    requires forall p :: env.probe(p).Probed?
    requires b.files == ["d/img001.png", "d/img002.png", "d/clip.mp4"] && b.next == 0
    requires b.catalog == [FileEntry("d/img001.png", map[], None)]
    ensures |Run(env, b).catalog| == 2
    ensures !InCatalog(Run(env, b).catalog, "d/clip.mp4")
  {
    ExampleFirstStep(env, b);
    var s1 := b.(next := 1);
    ExampleRunFromSecond(env, s1);
    var e := SequenceEntry(env.hint.value, env.newId(1));
    assert e.path != "d/clip.mp4" by {
      SequenceEntryExtension(env.hint.value, env.newId(1));
      assert "d/clip.mp4"[|"d/clip.mp4"| - 4..] != ".png";
    }
    CatalogOfTwoMisses(Run(env, s1).catalog, b.catalog[0], e, "d/clip.mp4");
  }

  /** From the example's second turn on, the loop saves the sequence and stops. */
  lemma ExampleRunFromSecond(env: ImportEnv, b: Batch)
    requires env.hint == Some(SequenceDetails("d", "img", true, 3, "png"))
    requires env.fs == ["d/img001.png", "d/img002.png", "d/clip.mp4"]
    requires forall p :: env.probe(p).Probed?
    requires b.files == ["d/img001.png", "d/img002.png", "d/clip.mp4"] && b.next == 1
    requires b.catalog == [FileEntry("d/img001.png", map[], None)]
    ensures Run(env, b).catalog == b.catalog + [SequenceEntry(env.hint.value, env.newId(1))]
  {
    ExampleSecondStep(env, b);
    RunUnfolds(env, b);
    RunUnfolds(env, Step(env, b));
  }

  lemma CatalogOfTwoMisses(catalog: seq<FileEntry>, e0: FileEntry, e1: FileEntry, path: string)
    requires catalog == [e0, e1] && e0.path != path && e1.path != path
    ensures |catalog| == 2 && !InCatalog(catalog, path)
  {
  }
}
