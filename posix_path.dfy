/**
 * `os.path.split`, `os.path.join` (two arguments) and `os.path.basename` of
 * Python's posixpath, on paths written as strings with '/' as separator.
 */
module PosixPath {
  import opened Text

  /** `p.rfind('/') + 1`: where the last component of `p` starts. */
  function AfterLastSlash(p: string): (i: nat)
    ensures i <= |p|
    ensures i > 0 ==> p[i - 1] == '/'
    ensures forall k :: i <= k < |p| ==> p[k] != '/'
    decreases |p|
  {
    if |p| == 0 then 0
    else if p[|p| - 1] == '/' then |p|
    else AfterLastSlash(p[..|p| - 1])
  }

  function RStripSlashes(s: string): (r: string)
    ensures r == [] || r[|r| - 1] != '/'
    ensures StartsWith(s, r)
    decreases |s|
  {
    if |s| > 0 && s[|s| - 1] == '/' then RStripSlashes(s[..|s| - 1]) else s
  }

  /** `os.path.split(p)`: the directory part (trailing slashes dropped unless it is all slashes) and the last component. */
  function SplitPath(p: string): (r: (string, string))
    ensures '/' !in r.1
    ensures EndsWith(p, r.1)
  {
    var i := AfterLastSlash(p);
    var head, tail := p[..i], p[i..];
    assert '/' !in tail by {
      forall k | 0 <= k < |tail| ensures tail[k] != '/' {
        assert tail[k] == p[i + k];
      }
    }
    if head != [] && !AllChar(head, '/') then (RStripSlashes(head), tail) else (head, tail)
  }

  /** `os.path.basename(p)`, which is `os.path.split(p)[1]`. */
  function Basename(p: string): string {
    SplitPath(p).1
  }

  /** `os.path.join(a, b)`. */
  function Join(a: string, b: string): string {
    if StartsWith(b, "/") then b
    else if a == [] || EndsWith(a, "/") then a + b
    else a + "/" + b
  }

  lemma AfterLastSlashOfJoined(x: string, n: string)
    requires |x| > 0 && x[|x| - 1] == '/'
    requires '/' !in n
    ensures AfterLastSlash(x + n) == |x|
  {
    var s := x + n;
    assert s[|x| - 1] == '/';
  }

  /**
   * Splitting a joined path gives back the component, and gives back the
   * directory when it does not end in a slash.
   */
  lemma SplitOfJoin(d: string, n: string)
    requires '/' !in n
    ensures SplitPath(Join(d, n)).1 == n
    ensures d == [] || d[|d| - 1] != '/' ==> SplitPath(Join(d, n)).0 == d
  {
    var s := Join(d, n);
    if n != [] {
      assert n[0] != '/';
    }
    assert !StartsWith(n, "/");
    if d == [] {
      assert s == n;
      assert AfterLastSlash(s) == 0;
    } else if EndsWith(d, "/") {
      AfterLastSlashOfJoined(d, n);
      assert s[..|d|] == d && s[|d|..] == n;
    } else {
      var x := d + "/";
      assert s == x + n;
      AfterLastSlashOfJoined(x, n);
      assert s[..|x|] == x && s[|x|..] == n;
      assert !AllChar(x, '/') by {
        assert x[|d| - 1] == d[|d| - 1];
      }
      assert RStripSlashes(x) == d by {
        assert x[..|x| - 1] == d;
      }
    }
  }
}
