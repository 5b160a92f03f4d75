/**
 * The parts of Python's posixpath used by the batch fixer: join, basename
 * and the root half of splitext. Paths are strings with '/' as separator.
 */
module Paths {

  /** Index of the last occurrence of c in s, or -1 (str.rfind). */
  function LastIndexOf(s: string, c: char): (r: int)
    ensures -1 <= r < |s|
    ensures r >= 0 ==> s[r] == c
    ensures forall j :: r < j < |s| ==> s[j] != c
    decreases |s|
  {
    if |s| == 0 then -1
    else if s[|s| - 1] == c then |s| - 1
    else LastIndexOf(s[..|s| - 1], c)
  }

  /** os.path.join(a, b) for two components. */
  function Join(a: string, b: string): string
  {
    if |b| > 0 && b[0] == '/' then b
    else if a == "" || a[|a| - 1] == '/' then a + b
    else a + "/" + b
  }

  /** os.path.basename: everything after the last separator. */
  function Basename(p: string): string
  {
    p[LastIndexOf(p, '/') + 1..]
  }

  /**
   * The index at which os.path.splitext splits p, if it splits at all: the
   * last '.' must lie after the last '/' and must be preceded, within the
   * final component, by some character other than '.'.
   */
  function ExtIndex(p: string): (r: int)
    ensures -1 <= r < |p|
  {
    var sep := LastIndexOf(p, '/');
    var dot := LastIndexOf(p, '.');
    if dot > sep && exists j | sep + 1 <= j < dot :: p[j] != '.' then dot else -1
  }

  /** os.path.splitext(p)[0] */
  function SplitExtRoot(p: string): string
  {
    var d := ExtIndex(p);
    if d < 0 then p else p[..d]
  }

  /** os.path.splitext(p)[1] */
  function SplitExtExt(p: string): string
  {
    var d := ExtIndex(p);
    if d < 0 then "" else p[d..]
  }

  /**
   * splitext splits p into two parts that give p back; the extension is
   * either empty or a single '.' followed by no '.' and no '/', and the
   * root is never empty when the extension is not.
   */
  lemma SplitExtParts(p: string)
    ensures SplitExtRoot(p) + SplitExtExt(p) == p
    ensures var e := SplitExtExt(p);
      e == "" || (e[0] == '.' && forall j :: 0 < j < |e| ==> e[j] != '.' && e[j] != '/')
    ensures SplitExtExt(p) != "" ==> SplitExtRoot(p) != ""
  {
    var d := ExtIndex(p);
    if d >= 0 {
      var e := p[d..];
      forall j | 0 < j < |e| ensures e[j] != '.' && e[j] != '/' {
        assert e[j] == p[d + j];
      }
    }
  }

  predicate NoSeparator(name: string)
  {
    forall j :: 0 <= j < |name| ==> name[j] != '/'
  }

  /** splitext's root of a separator-free name is a prefix of it, so also separator-free. */
  lemma SplitExtRootNoSeparator(name: string)
    requires NoSeparator(name)
    ensures NoSeparator(SplitExtRoot(name))
    ensures |SplitExtRoot(name)| <= |name|
  {
    var root := SplitExtRoot(name);
    forall j | 0 <= j < |root| ensures root[j] != '/' {
      assert root[j] == name[j];
    }
  }

  /**
   * Joining a directory with a non-empty name that holds no separator, as
   * os.listdir returns, and taking the basename again gives the name back.
   */
  lemma {:induction false} BasenameOfJoin(dir: string, name: string)
    requires name != "" && NoSeparator(name)
    ensures Basename(Join(dir, name)) == name
  {
    var prefix := if dir == "" || dir[|dir| - 1] == '/' then dir else dir + "/";
    var p := prefix + name;
    assert Join(dir, name) == p;
    LastIndexAfterPrefix(prefix, name);
    assert p[|prefix|..] == name;
  }

  lemma {:induction false} LastIndexAfterPrefix(prefix: string, name: string)
    requires NoSeparator(name)
    requires prefix == "" || prefix[|prefix| - 1] == '/'
    ensures LastIndexOf(prefix + name, '/') == |prefix| - 1
  {
    var p := prefix + name;
    forall j | |prefix| <= j < |p| ensures p[j] != '/' {
      assert p[j] == name[j - |prefix|];
    }
    assert prefix != "" ==> p[|prefix| - 1] == '/';
  }
}
