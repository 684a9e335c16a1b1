/**
 * The image-sequence heuristic of `FilesManager.get_image_sequence_details`
 * (src/windows/models/files_model.py:505-565), over an abstract filesystem:
 * `fs` lists the path strings that exist, in directory-listing order.
 * `os.path.exists(p)` is `p in fs` and `glob.glob(pattern)` lists the paths
 * of `fs` the pattern matches, in that order.
 */
module ImageSequences {
  import opened Optional
  import opened Text
  import opened Decimal
  import opened PosixPath
  import opened FrameNames

  /** The dictionary returned when the user accepts the sequence. */
  datatype SequenceDetails = SequenceDetails(folderPath: string, baseName: string, fixlen: bool, digits: nat, extension: string)

  /** What one detection leaves behind: the directories to skip for the rest of the run, and the details if any. */
  datatype Detection = Detection(ignored: seq<string>, details: Option<SequenceDetails>)

  /** How far the neighbour scan reaches on each side of the frame number. */
  const ScanRadius: nat := 100

  /** Frame numbers at or above this are never scanned. */
  const FrameLimit: nat := 50000

  /** `max(0, number - 100)`. */
  function WindowStart(number: nat): nat {
    if number >= ScanRadius then number - ScanRadius else 0
  }

  /** `min(number + 101, 50000)`. */
  function WindowEnd(number: nat): nat {
    if number + ScanRadius + 1 <= FrameLimit then number + ScanRadius + 1 else FrameLimit
  }

  /** The path checked for frame `x`: the base, `x` (zero-padded to `digits` when `fixlen`), '.', the extension. */
  function FramePath(fullBase: string, x: nat, digits: nat, fixlen: bool, ext: string): string {
    fullBase + (if fixlen then RJust(NatToString(x), digits, '0') else NatToString(x)) + "." + ext
  }

  /** `p` matches the glob `fullBase + "[0-9]" * width + "." + ext`. */
  predicate MatchesDigitGlob(p: string, fullBase: string, width: nat, ext: string) {
    && |p| == |fullBase| + width + 1 + |ext|
    && p[..|fullBase|] == fullBase
    && AllDigits(p[|fullBase|..|fullBase| + width])
    && p[|fullBase| + width..] == "." + ext
  }

  /** `glob.glob(fullBase + "[0-9]" * width + "." + ext)` is not empty. */
  predicate HasSiblingOfWidth(fs: seq<string>, fullBase: string, width: nat, ext: string) {
    exists p | p in fs :: MatchesDigitGlob(p, fullBase, width, ext)
  }

  /**
   * The width decision: fixed when the name carried padding zeros, or when
   * no file of the same base has one digit more, nor one digit fewer (three
   * digits when there is only one).
   */
  function DecideFixlen(fs: seq<string>, fullBase: string, padded: bool, digits: nat, ext: string): bool {
    padded || !(
      HasSiblingOfWidth(fs, fullBase, digits + 1, ext)
      || HasSiblingOfWidth(fs, fullBase, if digits > 1 then digits - 1 else 3, ext))
  }

  /** Some other frame of the scan window exists. */
  predicate NeighbourExists(fs: seq<string>, fullBase: string, number: nat, digits: nat, fixlen: bool, ext: string) {
    exists x: nat | WindowStart(number) <= x < WindowEnd(number) ::
      x != number && FramePath(fullBase, x, digits, fixlen, ext) in fs
  }

  /** What the detector derives from a recognised name before it scans: the facts the rest of the heuristic uses. */
  datatype Candidate = Candidate(fullBase: string, number: nat, digits: nat, fixlen: bool)

  function CandidateOf(fs: seq<string>, dir: string, f: FrameName): Candidate
    requires AllDigits(f.numeral)
  {
    var digits := |f.zeros| + |f.numeral|;
    var fullBase := Join(dir, f.base);
    Candidate(fullBase, ParseNat(f.numeral), digits, DecideFixlen(fs, fullBase, |f.zeros| > 0, digits, f.ext))
  }

  lemma CandidateOfIs(fs: seq<string>, dir: string, f: FrameName)
    requires AllDigits(f.numeral)
    ensures var digits := |f.zeros| + |f.numeral|;
      CandidateOf(fs, dir, f)
        == Candidate(Join(dir, f.base), ParseNat(f.numeral), digits, DecideFixlen(fs, Join(dir, f.base), |f.zeros| > 0, digits, f.ext))
  {
  }

  /**
   * One call of `get_image_sequence_details(filePath)`, given the directories
   * already skipped in this run and the answer the user would give.
   */
  function DetectSequence(ignored: seq<string>, fs: seq<string>, filePath: string, answer: bool): (r: Detection)
    ensures var dir := SplitPath(filePath).0;
      && (r.ignored == ignored || (dir !in ignored && r.ignored == ignored + [dir]))
      && (dir in ignored ==> r == Detection(ignored, None))
      && (r.details.Some? ==> answer && r.ignored == ignored + [dir] && r.details.value.folderPath == dir)
      && (r.details.Some? ==> ParseFrameName(SplitPath(filePath).1).Some?)
  {
    var (dir, name) := SplitPath(filePath);
    if dir in ignored then Detection(ignored, None)
    else match ParseFrameName(name)
      case None => Detection(ignored, None)
      case Some(f) =>
        ParsedNumeralDigits(name);
        var c := CandidateOf(fs, dir, f);
        if !NeighbourExists(fs, c.fullBase, c.number, c.digits, c.fixlen, f.ext) then Detection(ignored, None)
        else Detection(ignored + [dir], if answer then Some(SequenceDetails(dir, f.base, c.fixlen, c.digits, f.ext)) else None)
  }

  /**
   * What an accepted sequence's details mean: the name was recognised, the
   * digit count is the zeros plus the numeral, the width decision is the
   * sibling heuristic, and another frame of the window exists on disk.
   */
  lemma DetectedDetails(ignored: seq<string>, fs: seq<string>, filePath: string, answer: bool)
    requires DetectSequence(ignored, fs, filePath, answer).details.Some?
    ensures ParseFrameName(SplitPath(filePath).1).Some?
    ensures WellFormed(ParseFrameName(SplitPath(filePath).1).value)
    ensures var d := DetectSequence(ignored, fs, filePath, answer).details.value;
      var dir, f := SplitPath(filePath).0, ParseFrameName(SplitPath(filePath).1).value;
      d == SequenceDetails(dir, f.base, d.fixlen, |f.zeros| + |f.numeral|, f.ext)
    ensures var d := DetectSequence(ignored, fs, filePath, answer).details.value;
      var dir, f := SplitPath(filePath).0, ParseFrameName(SplitPath(filePath).1).value;
      d.fixlen == DecideFixlen(fs, Join(dir, f.base), |f.zeros| > 0, d.digits, f.ext)
    ensures var d := DetectSequence(ignored, fs, filePath, answer).details.value;
      var dir, f := SplitPath(filePath).0, ParseFrameName(SplitPath(filePath).1).value;
      NeighbourExists(fs, Join(dir, f.base), ParseNat(f.numeral), d.digits, d.fixlen, f.ext)
  {
    var dir := SplitPath(filePath).0;
    var f := ParseFrameName(SplitPath(filePath).1).value;
    var d := DetectSequence(ignored, fs, filePath, answer).details.value;
    DetectSequenceOfFrame(ignored, fs, filePath, answer, f);
    var c := CandidateOf(fs, dir, f);
    assert NeighbourExists(fs, c.fullBase, c.number, c.digits, c.fixlen, f.ext);
    assert d == SequenceDetails(dir, f.base, c.fixlen, c.digits, f.ext);
    DetailsOfCandidate(fs, dir, f, d);
    NeighbourOfCandidate(fs, dir, f, d);
  }

  /** The details built from the candidate of `f` carry its digit count and its width decision. */
  lemma DetailsOfCandidate(fs: seq<string>, dir: string, f: FrameName, d: SequenceDetails)
    requires AllDigits(f.numeral)
    requires var c := CandidateOf(fs, dir, f);
      d == SequenceDetails(dir, f.base, c.fixlen, c.digits, f.ext)
    ensures d == SequenceDetails(dir, f.base, d.fixlen, |f.zeros| + |f.numeral|, f.ext)
    ensures d.fixlen == DecideFixlen(fs, Join(dir, f.base), |f.zeros| > 0, d.digits, f.ext)
  {
    CandidateOfIs(fs, dir, f);
  }

  /** The neighbour found for the candidate of `f` is a neighbour of the details built from it. */
  lemma NeighbourOfCandidate(fs: seq<string>, dir: string, f: FrameName, d: SequenceDetails)
    requires AllDigits(f.numeral)
    requires var c := CandidateOf(fs, dir, f);
      NeighbourExists(fs, c.fullBase, c.number, c.digits, c.fixlen, f.ext)
      && d == SequenceDetails(dir, f.base, c.fixlen, c.digits, f.ext)
    ensures NeighbourExists(fs, Join(dir, f.base), ParseNat(f.numeral), d.digits, d.fixlen, f.ext)
  {
    CandidateOfIs(fs, dir, f);
  }

  /** `DetectSequence` once the directory is new and the name is recognised as `f`. */
  lemma DetectSequenceOfFrame(ignored: seq<string>, fs: seq<string>, filePath: string, answer: bool, f: FrameName)
    requires SplitPath(filePath).0 !in ignored && ParseFrameName(SplitPath(filePath).1) == Some(f)
    ensures WellFormed(f)
    ensures var dir := SplitPath(filePath).0;
      var c := CandidateOf(fs, dir, f);
      DetectSequence(ignored, fs, filePath, answer) ==
        if !NeighbourExists(fs, c.fullBase, c.number, c.digits, c.fixlen, f.ext) then Detection(ignored, None)
        else Detection(ignored + [dir], if answer then Some(SequenceDetails(dir, f.base, c.fixlen, c.digits, f.ext)) else None)
  {
    ParseFrameNameSound(SplitPath(filePath).1);
  }

  /** The directory is remembered as soon as a neighbour is found, whatever the user answers; declining gives no details. */
  lemma DeclineStillIgnoresDirectory(ignored: seq<string>, fs: seq<string>, filePath: string)
    requires DetectSequence(ignored, fs, filePath, true).details.Some?
    ensures DetectSequence(ignored, fs, filePath, false) == Detection(ignored + [SplitPath(filePath).0], None)
  {
  }

  /** A name with no recognisable frame number is never a sequence, and no directory is recorded for it. */
  lemma UnrecognisedNameIsNoSequence(ignored: seq<string>, fs: seq<string>, filePath: string, answer: bool)
    requires ParseFrameName(SplitPath(filePath).1).None?
    ensures DetectSequence(ignored, fs, filePath, answer) == Detection(ignored, None)
  {
  }

  /** Frame numbers from 50100 on leave an empty scan window, so they are never detected. */
  lemma HighFrameNumbersNeverDetected(ignored: seq<string>, fs: seq<string>, filePath: string, answer: bool, f: FrameName)
    requires ParseFrameName(SplitPath(filePath).1) == Some(f)
    requires AllDigits(f.numeral) && ParseNat(f.numeral) >= FrameLimit + ScanRadius
    ensures DetectSequence(ignored, fs, filePath, answer) == Detection(ignored, None)
  {
    ParseFrameNameSound(SplitPath(filePath).1);
  }

  /** After one detection records a directory, every later file of that directory is skipped in the same run. */
  lemma OnePromptPerDirectory(ignored: seq<string>, fs: seq<string>, p1: string, a1: bool, p2: string, a2: bool)
    requires SplitPath(p1).0 == SplitPath(p2).0
    requires DetectSequence(ignored, fs, p1, a1).ignored != ignored
    ensures var r1 := DetectSequence(ignored, fs, p1, a1);
      DetectSequence(r1.ignored, fs, p2, a2) == Detection(r1.ignored, None)
  {
  }

  /** Both width decisions write the number back as it was read: padded to the same width, or plain when there was no padding. */
  lemma {:induction false} NumberWrittenBack(zeros: string, numeral: string, fixlen: bool)
    requires AllChar(zeros, '0') && Canonical(numeral)
    requires fixlen || zeros == []
    ensures (if fixlen then RJust(NatToString(ParseNat(numeral)), |zeros| + |numeral|, '0')
             else NatToString(ParseNat(numeral))) == zeros + numeral
  {
    NatToStringParse(numeral);
    if fixlen && |zeros| > 0 {
      assert Repeat('0', |zeros|) == zeros;
    }
  }

  /**
   * The path the scan builds for the file's own number is the file's own
   * spelling, under either width decision the detector can take (a padded
   * name is always fixed-width), which is why the scan skips `x == number`.
   */
  lemma OwnFramePath(fullBase: string, f: FrameName, fixlen: bool)
    requires AllChar(f.zeros, '0') && Canonical(f.numeral)
    requires fixlen || f.zeros == []
    ensures FramePath(fullBase, ParseNat(f.numeral), |f.zeros| + |f.numeral|, fixlen, f.ext)
      == fullBase + f.zeros + f.numeral + "." + f.ext
  {
    var digits := |f.zeros| + |f.numeral|;
    var number := ParseNat(f.numeral);
    NumberWrittenBack(f.zeros, f.numeral, fixlen);
    FramePathSpelled(fullBase, number, digits, fixlen, f.ext, f.zeros + f.numeral);
    Regroup(fullBase, f.zeros, f.numeral, f.ext);
  }

  lemma FramePathSpelled(fullBase: string, x: nat, digits: nat, fixlen: bool, ext: string, w: string)
    requires w == if fixlen then RJust(NatToString(x), digits, '0') else NatToString(x)
    ensures FramePath(fullBase, x, digits, fixlen, ext) == fullBase + w + "." + ext
  {
  }

  lemma Regroup(a: string, z: string, n: string, e: string)
    ensures a + (z + n) + "." + e == a + z + n + "." + e
  {
  }

  /**
   * The scan loop: `for x in range(max(0, number - 100), min(number + 101, 50000))`
   * breaking at the first `x != number` whose frame path exists.
   */
  method FindNeighbourFrame(fs: seq<string>, fullBase: string, number: nat, digits: nat, fixlen: bool, ext: string)
    returns (found: bool)
    ensures found == NeighbourExists(fs, fullBase, number, digits, fixlen, ext)
  {
    found := false;
    var x := WindowStart(number);
    while x < WindowEnd(number)
      invariant WindowStart(number) <= x
      invariant forall y: nat :: WindowStart(number) <= y < x && y < WindowEnd(number) ==>
        y == number || FramePath(fullBase, y, digits, fixlen, ext) !in fs
      decreases WindowEnd(number) - x
    {
      if x != number && FramePath(fullBase, x, digits, fixlen, ext) in fs {
        found := true;
        break;
      }
      x := x + 1;
    }
  }
}
