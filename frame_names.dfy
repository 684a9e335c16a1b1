/**
 * The file-name test of the image-sequence detector
 * (src/windows/models/files_model.py:515-527): the first match of
 * `re.findall(r"(.*[^\d])?(0*)(\d+)\.(png|jpg|jpeg|gif|tif|svg)", name, re.I)`.
 *
 * `findall` searches: it tries start positions from the left, and at each
 * start the regex engine backtracks in a fixed order. The optional group is
 * tried before its absence, and its greedy `.*` tries the longest span first,
 * so at one start position the match with the LARGEST group end wins; `.`
 * does not cross a line feed, while `[^\d]` may be one. After the group,
 * `(0*)(\d+)\.` must end the digit run at a '.', so the run is maximal and
 * `0*` keeps all leading zeros but one digit. The extension alternatives are
 * tried in the order written and none is a prefix of another.
 */
module FrameNames {
  import opened Optional
  import opened Text

  /** The alternatives of the extension group, in the order the regex tries them. */
  const Extensions: seq<string> := ["png", "jpg", "jpeg", "gif", "tif", "svg"]

  /** The four groups of a match; `base` is '' when the optional group took no part, `ext` keeps the case it has in the name. */
  datatype FrameName = FrameName(base: string, zeros: string, numeral: string, ext: string)

  datatype Tail = Tail(zeros: string, numeral: string, ext: string)

  /** `w` is found in `s` at position `i`. */
  predicate PrefixAt(s: string, i: nat, w: string) {
    i + |w| <= |s| && s[i..i + |w|] == w
  }

  predicate IsExtension(x: string) {
    Lower(x) in Extensions
  }

  /** `s` spells, from position `e`, the zeros, the numeral, '.', and the extension of `t`. */
  predicate TailMatchesAt(s: string, e: nat, t: Tail) {
    && PrefixAt(s, e, t.zeros)
    && PrefixAt(s, e + |t.zeros|, t.numeral)
    && PrefixAt(s, e + |t.zeros| + |t.numeral|, ".")
    && PrefixAt(s, e + |t.zeros| + |t.numeral| + 1, t.ext)
  }

  /** `s` spells the whole match `f` from position `st`. */
  predicate MatchesAt(s: string, st: nat, f: FrameName) {
    PrefixAt(s, st, f.base) && TailMatchesAt(s, st + |f.base|, Tail(f.zeros, f.numeral, f.ext))
  }

  /** What `(0*)(\d+)\.(ext)` can capture: zeros, then a numeral with no superfluous zero, then a listed extension. */
  predicate WellFormedTail(t: Tail) {
    && AllChar(t.zeros, '0')
    && |t.numeral| >= 1 && AllDigits(t.numeral) && (t.numeral[0] != '0' || |t.numeral| == 1)
    && IsExtension(t.ext)
  }

  /** What the whole regex can capture: the group is absent, or it ends in a non-digit and `.*` crossed no line feed. */
  predicate WellFormed(f: FrameName) {
    && (f.base == [] || (!IsDigit(f.base[|f.base| - 1]) && '\n' !in f.base[..|f.base| - 1]))
    && WellFormedTail(Tail(f.zeros, f.numeral, f.ext))
  }

  /** The text of the first extension alternative, from the `k`-th on, that matches at `i` ignoring case. */
  function ExtensionFrom(s: string, i: nat, k: nat): Option<string>
    requires k <= |Extensions|
    decreases |Extensions| - k
  {
    if k == |Extensions| then None
    else
      var x := Extensions[k];
      if FoldsTo(s, i, x) then Some(s[i..i + |x|])
      else ExtensionFrom(s, i, k + 1)
  }

  /** `s` from `i` spells `x` once lower-cased, character by character. */
  predicate FoldsTo(s: string, i: nat, x: string)
    decreases x
  {
    i + |x| <= |s| && (|x| == 0 || (LowerChar(s[i]) == x[0] && FoldsTo(s, i + 1, x[1..])))
  }

  lemma {:induction false} FoldsToSlice(s: string, i: nat, x: string)
    ensures FoldsTo(s, i, x) <==> i + |x| <= |s| && Lower(s[i..i + |x|]) == x
    decreases x
  {
    if i + |x| <= |s| && |x| > 0 {
      FoldsToSlice(s, i + 1, x[1..]);
      var w, v := s[i..i + |x|], s[i + 1..i + |x|];
      assert w[1..] == v;
      if Lower(w) == x {
        assert Lower(v) == x[1..] by {
          forall k | 0 <= k < |v| ensures Lower(v)[k] == x[1..][k] {
            assert Lower(w)[k + 1] == LowerChar(w[k + 1]);
          }
        }
      }
      if LowerChar(s[i]) == x[0] && Lower(v) == x[1..] {
        forall k | 0 <= k < |w| ensures Lower(w)[k] == x[k] {
          if k > 0 {
            assert Lower(v)[k - 1] == LowerChar(v[k - 1]);
          }
        }
      }
    }
  }

  lemma {:induction false} ExtensionFromSound(s: string, i: nat, k: nat)
    requires k <= |Extensions|
    ensures ExtensionFrom(s, i, k).Some? ==> PrefixAt(s, i, ExtensionFrom(s, i, k).value) && IsExtension(ExtensionFrom(s, i, k).value)
    decreases |Extensions| - k
  {
    if k < |Extensions| {
      var x := Extensions[k];
      if FoldsTo(s, i, x) {
        FoldsToSlice(s, i, x);
        assert Lower(s[i..i + |x|]) == Extensions[k];
      } else {
        ExtensionFromSound(s, i, k + 1);
      }
    }
  }

  /** End of the run of digits that starts at `i`. */
  function DigitRunEnd(s: string, i: nat): (j: nat)
    requires i <= |s|
    ensures i <= j <= |s|
    decreases |s| - i
  {
    if i == |s| || !IsDigit(s[i]) then i else DigitRunEnd(s, i + 1)
  }

  lemma {:induction false} DigitRunEndFacts(s: string, i: nat)
    requires i <= |s|
    ensures forall k :: i <= k < DigitRunEnd(s, i) ==> IsDigit(s[k])
    ensures DigitRunEnd(s, i) == |s| || !IsDigit(s[DigitRunEnd(s, i)])
    decreases |s| - i
  {
    if i < |s| && IsDigit(s[i]) {
      DigitRunEndFacts(s, i + 1);
    }
  }

  /** A run of `n` digits at `i` that a non-digit or the end of `s` closes ends at `i + n`. */
  lemma {:induction false} DigitRunEndIs(s: string, i: nat, n: nat)
    requires i + n <= |s|
    requires forall k :: i <= k < i + n ==> IsDigit(s[k])
    requires i + n == |s| || !IsDigit(s[i + n])
    ensures DigitRunEnd(s, i) == i + n
    decreases n
  {
    if n > 0 {
      DigitRunEndIs(s, i + 1, n - 1);
    }
  }

  /** End of the run of '0' characters that starts at `i`. */
  function ZeroRunEnd(s: string, i: nat): (j: nat)
    requires i <= |s|
    ensures i <= j <= |s|
    decreases |s| - i
  {
    if i == |s| || s[i] != '0' then i else ZeroRunEnd(s, i + 1)
  }

  lemma {:induction false} ZeroRunEndFacts(s: string, i: nat)
    requires i <= |s|
    ensures forall k :: i <= k < ZeroRunEnd(s, i) ==> s[k] == '0'
    ensures ZeroRunEnd(s, i) == |s| || s[ZeroRunEnd(s, i)] != '0'
    decreases |s| - i
  {
    if i < |s| && s[i] == '0' {
      ZeroRunEndFacts(s, i + 1);
    }
  }

  /** First line feed at or after `i`, or `|s|`. */
  function NewlineFrom(s: string, i: nat): (j: nat)
    requires i <= |s|
    ensures i <= j <= |s|
    decreases |s| - i
  {
    if i == |s| || s[i] == '\n' then i else NewlineFrom(s, i + 1)
  }

  lemma {:induction false} NewlineFromFacts(s: string, i: nat)
    requires i <= |s|
    ensures forall k :: i <= k < NewlineFrom(s, i) ==> s[k] != '\n'
    ensures NewlineFrom(s, i) == |s| || s[NewlineFrom(s, i)] == '\n'
    decreases |s| - i
  {
    if i < |s| && s[i] != '\n' {
      NewlineFromFacts(s, i + 1);
    }
  }

  function Min(a: nat, b: nat): nat {
    if a <= b then a else b
  }

  /** What `(0*)(\d+)\.(ext)` matches starting at `e`, if anything. */
  function TailAt(s: string, e: nat): Option<Tail>
    requires e <= |s|
  {
    var f := DigitRunEnd(s, e);
    TailWith(s, e, f, ExtensionFrom(s, f + 1, 0))
  }

  /** The tail ending the digit run `s[e..f]` when a '.' and the extension `ext` follow it. */
  function TailWith(s: string, e: nat, f: nat, ext: Option<string>): Option<Tail>
    requires e <= f <= |s|
  {
    if f == e || f == |s| || s[f] != '.' || ext.None? then None
    else Some(RunTail(s, e, f, ext.value))
  }

  /** The tail cut from the digit run `s[e..f]`: its leading zeros, keeping at least one digit as the numeral. */
  function RunTail(s: string, e: nat, f: nat, x: string): Tail
    requires e < f <= |s|
  {
    var z := Min(ZeroRunEnd(s, e) - e, f - e - 1);
    Tail(s[e..e + z], s[e + z..f], x)
  }

  /** The pieces `TailAt` puts together form a tail the regex can capture, spelled from `e`. */
  lemma TailParts(s: string, e: nat, z: nat, f: nat, x: string, t: Tail)
    requires e + z < f < |s| && s[f] == '.'
    requires forall k :: e <= k < f ==> IsDigit(s[k])
    requires forall k :: e <= k < e + z ==> s[k] == '0'
    requires z + 1 < f - e ==> s[e + z] != '0'
    requires PrefixAt(s, f + 1, x) && IsExtension(x)
    requires t == Tail(s[e..e + z], s[e + z..f], x)
    ensures WellFormedTail(t) && TailMatchesAt(s, e, t)
  {
    var zeros, numeral := s[e..e + z], s[e + z..f];
    forall k | 0 <= k < |zeros| ensures zeros[k] == '0' {
      assert zeros[k] == s[e + k];
    }
    forall k | 0 <= k < |numeral| ensures IsDigit(numeral[k]) {
      assert numeral[k] == s[e + z + k];
    }
    assert numeral[0] == s[e + z];
    assert s[f..f + 1] == [s[f]];
  }

  /** The tail `TailAt` builds from the digit run at `e` is one the regex can capture, spelled from `e`. */
  lemma TailOfRun(s: string, e: nat, f: nat, x: string)
    requires e < f < |s| && s[f] == '.'
    requires f == DigitRunEnd(s, e) && PrefixAt(s, f + 1, x) && IsExtension(x)
    ensures WellFormedTail(RunTail(s, e, f, x)) && TailMatchesAt(s, e, RunTail(s, e, f, x))
  {
    var zr := ZeroRunEnd(s, e);
    ZeroRunEndFacts(s, e);
    var z := Min(zr - e, f - e - 1);
    assert forall k :: e <= k < e + z ==> s[k] == '0';
    assert z + 1 < f - e ==> s[e + z] != '0' by {
      if zr - e < f - e - 1 {
        assert e + z == zr;
      }
    }
    DigitRunEndFacts(s, e);
    var t := RunTail(s, e, f, x);
    assert t == Tail(s[e..e + z], s[e + z..f], x);
    TailParts(s, e, z, f, x, t);
  }

  lemma TailAtSound(s: string, e: nat)
    requires e <= |s|
    ensures TailAt(s, e).Some? ==> WellFormedTail(TailAt(s, e).value) && TailMatchesAt(s, e, TailAt(s, e).value)
  {
    if TailAt(s, e).Some? {
      TailAtGuard(s, e);
      var f := DigitRunEnd(s, e);
      var x := ExtensionFrom(s, f + 1, 0).value;
      TailAtIs(s, e, f, x);
      ExtensionFromSound(s, f + 1, 0);
      TailOfRun(s, e, f, x);
    }
  }

  /** `TailAt` answers only after a non-empty digit run, a '.' and a listed extension. */
  lemma TailAtGuard(s: string, e: nat)
    requires e <= |s| && TailAt(s, e).Some?
    ensures var f := DigitRunEnd(s, e);
      e < f < |s| && s[f] == '.' && ExtensionFrom(s, f + 1, 0).Some?
  {
  }

  /** What `TailAt` answers then: the tail cut from that digit run, with the extension found. */
  lemma TailAtIs(s: string, e: nat, f: nat, x: string)
    requires e < f < |s| && f == DigitRunEnd(s, e) && s[f] == '.'
    requires ExtensionFrom(s, f + 1, 0) == Some(x)
    ensures TailAt(s, e) == Some(RunTail(s, e, f, x))
  {
    assert TailAt(s, e) == TailWith(s, e, f, Some(x));
  }

  /** The match whose optional group spans `s[st..e']` for the largest `e' <= e` that lets the rest match. */
  function GroupedMatch(s: string, st: nat, e: nat): (r: Option<FrameName>)
    requires st <= e <= |s|
    decreases e
  {
    if e <= st then None
    else if !IsDigit(s[e - 1]) && TailAt(s, e).Some? then
      var t := TailAt(s, e).value;
      Some(FrameName(s[st..e], t.zeros, t.numeral, t.ext))
    else GroupedMatch(s, st, e - 1)
  }

  /** The match the regex finds when it starts at `st`. */
  function MatchAt(s: string, st: nat): Option<FrameName>
    requires st <= |s|
  {
    var g := GroupedMatch(s, st, Min(NewlineFrom(s, st) + 1, |s|));
    if g.Some? then g
    else match TailAt(s, st)
      case Some(t) => Some(FrameName("", t.zeros, t.numeral, t.ext))
      case None => None
  }

  function SearchFrom(s: string, st: nat): Option<FrameName>
    requires st <= |s|
    decreases |s| - st
  {
    var m := MatchAt(s, st);
    if m.Some? || st == |s| then m else SearchFrom(s, st + 1)
  }

  /** `match[0]` of the `findall` call, or `None` when the list is empty. */
  function ParseFrameName(name: string): Option<FrameName> {
    SearchFrom(name, 0)
  }

  /** A base up to a non-digit on the first line, then a tail the regex can capture: together a match at `st`. */
  lemma CandidateSound(s: string, st: nat, e: nat, t: Tail)
    requires st < e <= |s|
    requires e <= NewlineFrom(s, st) + 1
    requires !IsDigit(s[e - 1]) && WellFormedTail(t) && TailMatchesAt(s, e, t)
    ensures var f := FrameName(s[st..e], t.zeros, t.numeral, t.ext);
      WellFormed(f) && MatchesAt(s, st, f)
  {
    var f := FrameName(s[st..e], t.zeros, t.numeral, t.ext);
    assert Tail(f.zeros, f.numeral, f.ext) == t;
    assert st + |f.base| == e;
    BaseBeforeTail(s, st, e);
  }

  /** The text before a tail, up to a non-digit, crosses no line feed and is spelled from `st`. */
  lemma BaseBeforeTail(s: string, st: nat, e: nat)
    requires st < e <= |s|
    requires e <= NewlineFrom(s, st) + 1
    requires !IsDigit(s[e - 1])
    ensures var base := s[st..e];
      !IsDigit(base[|base| - 1]) && '\n' !in base[..|base| - 1] && PrefixAt(s, st, base)
  {
    var base := s[st..e];
    var pre := s[st..e - 1];
    NewlineFromFacts(s, st);
    forall k | 0 <= k < |pre| ensures pre[k] != '\n' {
      assert pre[k] == s[st + k];
    }
    assert base[..|base| - 1] == pre;
    assert base[|base| - 1] == s[e - 1];
  }

  lemma {:induction false} GroupedMatchSound(s: string, st: nat, e: nat)
    requires st <= e <= |s|
    requires e <= NewlineFrom(s, st) + 1
    ensures GroupedMatch(s, st, e).Some? ==> WellFormed(GroupedMatch(s, st, e).value) && MatchesAt(s, st, GroupedMatch(s, st, e).value)
    decreases e
  {
    if e > st {
      if !IsDigit(s[e - 1]) && TailAt(s, e).Some? {
        var t := TailAt(s, e).value;
        assert GroupedMatch(s, st, e) == Some(FrameName(s[st..e], t.zeros, t.numeral, t.ext));
        TailAtSound(s, e);
        CandidateSound(s, st, e, t);
      } else {
        GroupedMatchSound(s, st, e - 1);
      }
    }
  }

  lemma MatchAtSound(s: string, st: nat)
    requires st <= |s|
    ensures MatchAt(s, st).Some? ==> WellFormed(MatchAt(s, st).value) && MatchesAt(s, st, MatchAt(s, st).value)
  {
    GroupedMatchSound(s, st, Min(NewlineFrom(s, st) + 1, |s|));
    TailAtSound(s, st);
  }

  lemma {:induction false} SearchFromSound(s: string, st: nat)
    requires st <= |s|
    ensures SearchFrom(s, st).Some? ==> WellFormed(SearchFrom(s, st).value) && exists p :: st <= p <= |s| && MatchesAt(s, p, SearchFrom(s, st).value)
    decreases |s| - st
  {
    MatchAtSound(s, st);
    if MatchAt(s, st).None? && st < |s| {
      SearchFromSound(s, st + 1);
    }
  }

  /**
   * Whatever the detector extracts really is in the name: an optional base
   * ending in a non-digit, padding zeros, a numeral, '.', and a listed
   * extension (ignoring case). So a name with no such part gives `None`.
   */
  lemma ParseFrameNameSound(name: string)
    ensures ParseFrameName(name).Some? ==>
      WellFormed(ParseFrameName(name).value) && exists p :: 0 <= p <= |name| && MatchesAt(name, p, ParseFrameName(name).value)
  {
    SearchFromSound(name, 0);
  }

  /** The numeral of a recognised name is all digits: the part of `ParseFrameNameSound` that reading the number needs. */
  lemma ParsedNumeralDigits(name: string)
    ensures ParseFrameName(name).Some? ==> AllDigits(ParseFrameName(name).value.numeral)
  {
    ParseFrameNameSound(name);
  }

  lemma {:induction false} ExtensionFromFinds(s: string, i: nat, k: nat, j: nat)
    requires k <= j < |Extensions|
    requires i + |Extensions[j]| <= |s| && Lower(s[i..i + |Extensions[j]|]) == Extensions[j]
    ensures ExtensionFrom(s, i, k).Some?
    decreases j - k
  {
    if k < j {
      if !FoldsTo(s, i, Extensions[k]) {
        ExtensionFromFinds(s, i, k + 1, j);
      }
    } else {
      FoldsToSlice(s, i, Extensions[j]);
    }
  }

  /** A matched tail spells a run of digits, then '.'. */
  lemma TailSpellsDigits(s: string, e: nat, t: Tail)
    requires WellFormedTail(t) && TailMatchesAt(s, e, t)
    ensures e + |t.zeros| + |t.numeral| < |s|
    ensures forall k :: e <= k < e + |t.zeros| + |t.numeral| ==> IsDigit(s[k])
    ensures s[e + |t.zeros| + |t.numeral|] == '.'
  {
    var z := |t.zeros|;
    var run := z + |t.numeral|;
    forall k | e <= k < e + z ensures IsDigit(s[k]) {
      assert s[k] == s[e..e + z][k - e];
    }
    forall k | e + z <= k < e + run ensures IsDigit(s[k]) {
      assert s[k] == s[e + z..e + run][k - e - z];
      assert IsDigit(t.numeral[k - e - z]);
    }
    assert s[e + run] == s[e + run..e + run + 1][0];
  }

  lemma TailAtFinds(s: string, e: nat, t: Tail)
    requires e <= |s|
    requires WellFormedTail(t) && TailMatchesAt(s, e, t)
    ensures TailAt(s, e).Some?
  {
    TailRunFinds(s, e, t);
    TailAtSome(s, e, DigitRunEnd(s, e), t.ext);
  }

  /** A matched tail's digits are the whole digit run at `e`, followed by '.' and the tail's extension. */
  lemma TailRunFinds(s: string, e: nat, t: Tail)
    requires e <= |s|
    requires WellFormedTail(t) && TailMatchesAt(s, e, t)
    ensures var f := DigitRunEnd(s, e);
      e < f < |s| && s[f] == '.' && PrefixAt(s, f + 1, t.ext)
  {
    TailSpellsDigits(s, e, t);
    DigitRunEndIs(s, e, |t.zeros| + |t.numeral|);
  }

  /** `TailAt` answers when the digit run is not empty and is followed by '.' and a listed extension. */
  lemma TailAtSome(s: string, e: nat, f: nat, ext: string)
    requires e < f < |s| && f == DigitRunEnd(s, e) && s[f] == '.'
    requires PrefixAt(s, f + 1, ext) && IsExtension(ext)
    ensures TailAt(s, e).Some?
  {
    ExtensionAtFinds(s, f + 1, ext);
    TailAtIs(s, e, f, ExtensionFrom(s, f + 1, 0).value);
  }

  /** A listed extension at `i` is found by the alternatives. */
  lemma ExtensionAtFinds(s: string, i: nat, x: string)
    requires PrefixAt(s, i, x) && IsExtension(x)
    ensures ExtensionFrom(s, i, 0).Some?
  {
    var j :| 0 <= j < |Extensions| && Extensions[j] == Lower(x);
    assert |Extensions[j]| == |x|;
    ExtensionFromFinds(s, i, 0, j);
  }

  lemma {:induction false} GroupedMatchFinds(s: string, st: nat, e: nat, c: nat)
    requires st < c <= e <= |s|
    requires !IsDigit(s[c - 1]) && TailAt(s, c).Some?
    ensures GroupedMatch(s, st, e).Some?
    decreases e
  {
    if c < e && (IsDigit(s[e - 1]) || TailAt(s, e).None?) {
      GroupedMatchFinds(s, st, e - 1, c);
      assert GroupedMatch(s, st, e) == GroupedMatch(s, st, e - 1);
    }
  }

  /**
   * Conversely, every name that starts with such a part, from its start, is
   * recognised: the search finds a match at the very first position. Matches
   * that begin later in the name are covered by `SearchFromSound` only.
   */
  lemma ParseFrameNameComplete(name: string, f: FrameName)
    requires WellFormed(f) && MatchesAt(name, 0, f)
    ensures ParseFrameName(name).Some?
  {
    var b := |f.base|;
    TailAtFinds(name, b, Tail(f.zeros, f.numeral, f.ext));
    if b > 0 {
      var end := Min(NewlineFrom(name, 0) + 1, |name|);
      BaseWithinLine(name, f.base);
      GroupedMatchFinds(name, 0, end, b);
      assert GroupedMatch(name, 0, end).Some?;
    }
    assert MatchAt(name, 0).Some?;
  }

  /** A base spelled from the start that ends in a non-digit and crosses no line feed ends no later than just past the first line feed. */
  lemma BaseWithinLine(name: string, base: string)
    requires |base| > 0 && PrefixAt(name, 0, base)
    requires !IsDigit(base[|base| - 1]) && '\n' !in base[..|base| - 1]
    ensures |base| <= Min(NewlineFrom(name, 0) + 1, |name|) && !IsDigit(name[|base| - 1])
  {
    var b := |base|;
    var nl := NewlineFrom(name, 0);
    NewlineFromFacts(name, 0);
    assert name[..b] == base;
    assert nl >= b - 1 by {
      assert forall k :: 0 <= k < b - 1 ==> name[k] == base[..b - 1][k];
    }
    assert name[b - 1] == base[b - 1];
  }

  /** Candidate ends where no tail can start leave the grouped match to the shorter group. */
  lemma {:induction false} GroupedMatchSkips(s: string, st: nat, e: nat, c: nat)
    requires st <= c <= e <= |s|
    requires forall k :: c < k <= e ==> IsDigit(s[k - 1]) || TailAt(s, k).None?
    ensures GroupedMatch(s, st, e) == GroupedMatch(s, st, c)
    decreases e
  {
    if c < e {
      GroupedMatchSkips(s, st, e - 1, c);
    }
  }

  /** `img001.png`: the base is `img`, two zeros pad the numeral `1`. */
  lemma ExampleZeroPaddedFrame()
    ensures ParseFrameName("img001.png") == Some(FrameName("img", "00", "1", "png"))
  {
    var s := "img001.png";
    ExampleGroup();
    ExampleOneLine();
    ExampleNoLaterTail();
    GroupedMatchSkips(s, 0, 10, 3);
  }

  lemma ExampleOneLine()
    ensures NewlineFrom("img001.png", 0) == 10
  {
  }

  lemma ExampleGroup()
    ensures GroupedMatch("img001.png", 0, 3) == Some(FrameName("img", "00", "1", "png"))
  {
    ExampleTail();
    assert "img001.png"[0..3] == "img";
  }

  lemma ExampleTail()
    ensures TailAt("img001.png", 3) == Some(Tail("00", "1", "png"))
  {
    var s := "img001.png";
    assert DigitRunEnd(s, 3) == 6;
    assert s[7..10] == "png";
    assert FoldsTo(s, 7, "png");
    assert ExtensionFrom(s, 7, 0) == Some("png");
    TailAtIs(s, 3, 6, "png");
    assert ZeroRunEnd(s, 3) == 5;
    assert s[3..5] == "00" && s[5..6] == "1";
  }

  lemma ExampleNoLaterTail()
    ensures forall k :: 3 < k <= 10 ==> IsDigit("img001.png"[k - 1]) || TailAt("img001.png", k).None?
  {
    var s := "img001.png";
    forall k | 3 < k <= 10 ensures IsDigit(s[k - 1]) || TailAt(s, k).None? {
      if 6 < k {
        assert DigitRunEnd(s, k) == k;
      }
    }
  }
}
