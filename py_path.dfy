/** The parts of Python's `os.path` the scripts use, for POSIX paths. */
module PyPath {
  import opened PyStr

  /** `os.path.join(a, b)` for a relative `b` and a non-empty `a` that does
      not end in a separator. */
  function Join(a: string, b: string): string {
    a + "/" + b
  }

  /** Index of the last `c` in `s`. */
  function LastIndexOf(s: string, c: char): (i: nat)
    requires c in s
    ensures i < |s| && s[i] == c && c !in s[i + 1..]
  {
    if s[|s| - 1] == c then |s| - 1
    else
      assert c in s[..|s| - 1] by {
        var k :| 0 <= k < |s| && s[k] == c;
        assert s[..|s| - 1][k] == c;
      }
      var i := LastIndexOf(s[..|s| - 1], c);
      assert s[i + 1..] == s[..|s| - 1][i + 1..] + [s[|s| - 1]];
      i
  }

  /** Every character of `s` is a dot. */
  predicate AllDots(s: string) {
    forall k :: 0 <= k < |s| ==> s[k] == '.'
  }

  /** `os.path.splitext(name)[0]` for a name without separators: the name
      up to its last dot, unless only dots come before that dot (a leading
      dot starts a hidden name, not an extension). */
  function SplitExtRoot(name: string): (root: string)
    ensures root <= name
  {
    if '.' !in name then name
    else
      var i := LastIndexOf(name, '.');
      if AllDots(name[..i]) then name else name[..i]
  }

  /** `os.path.basename(p)`: what follows the last `/`. */
  function Basename(p: string): (b: string)
    ensures '/' !in b
    ensures b <= p || (exists k :: 0 <= k < |p| && p[k] == '/' && b == p[k + 1..])
  {
    if '/' !in p then p else p[LastIndexOf(p, '/') + 1..]
  }

  /** The root of `stem + ext`, where `ext` is a dot followed by no dot, is
      `stem` as long as `stem` is not all dots. */
  lemma SplitExtOfSuffix(stem: string, ext: string)
    requires |ext| >= 1 && ext[0] == '.' && '.' !in ext[1..]
    requires !AllDots(stem)
    ensures SplitExtRoot(stem + ext) == stem
  {
    var name := stem + ext;
    assert name[|stem|] == '.';
    var i := LastIndexOf(name, '.');
    assert name[|stem| + 1..] == ext[1..];
    assert forall k :: |stem| < k < |name| ==> name[k] == ext[1..][k - |stem| - 1];
    assert i == |stem|;
    assert name[..i] == stem;
  }
}
