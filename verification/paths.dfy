/** The parts of Python's `posixpath` the pipeline calls: `basename`, `dirname`, two-argument
    `join`, `splitext`, and `abspath` (that is, `normpath(join(cwd, p))`), with the current
    working directory passed in explicitly. */
module Paths {
  import opened Text

  /** `p.rfind(c)`: index of the last `c`, or -1. */
  function RFind(s: string, c: char): (i: int)
    ensures -1 <= i < |s|
    ensures i >= 0 ==> s[i] == c
    ensures forall k :: i < k < |s| ==> s[k] != c
  {
    if |s| == 0 then -1
    else if s[|s| - 1] == c then |s| - 1
    else RFind(s[..|s| - 1], c)
  }

  /** `os.path.basename(p)`: everything after the last '/'. */
  function Basename(p: string): (r: string)
    ensures forall k :: 0 <= k < |r| ==> r[k] != '/'
    ensures EndsWith(p, r)
  {
    var i := RFind(p, '/') + 1;
    assert p[|p| - |p[i..]|..] == p[i..];
    p[i..]
  }

  predicate AllSlashes(s: string) {
    forall k :: 0 <= k < |s| ==> s[k] == '/'
  }

  function RStripSlashes(s: string): string {
    if |s| > 0 && s[|s| - 1] == '/' then RStripSlashes(s[..|s| - 1]) else s
  }

  /** `os.path.dirname(p)`: the head up to the last '/', trailing slashes removed unless the
      head is nothing but slashes. */
  function Dirname(p: string): string {
    var head := p[..RFind(p, '/') + 1];
    if head != "" && !AllSlashes(head) then RStripSlashes(head) else head
  }

  /** `os.path.join(a, b)` */
  function PathJoin(a: string, b: string): string {
    if StartsWith(b, "/") then b
    else if a == "" || EndsWith(a, "/") then a + b
    else a + "/" + b
  }

  datatype SplitExt = SplitExt(root: string, ext: string)

  /** `os.path.splitext(p)`: the extension starts at the last '.' of the last component,
      unless that component has only dots before it (so ".bashrc" has no extension). */
  function Splitext(p: string): (r: SplitExt)
    ensures r.root + r.ext == p
    ensures r.ext == "" || r.ext[0] == '.'
    ensures forall k :: 0 < k < |r.ext| ==> r.ext[k] != '.' && r.ext[k] != '/'
  {
    var sep := RFind(p, '/');
    var dot := RFind(p, '.');
    if dot > sep && exists k :: sep + 1 <= k < dot && p[k] != '.' then
      SplitExt(p[..dot], p[dot..])
    else
      SplitExt(p, "")
  }

  /** A normalised absolute path: `lead` leading slashes (POSIX keeps exactly two) and the
      remaining components, none empty, ".", ".." or containing '/'. */
  datatype AbsPath = AbsPath(lead: nat, comps: seq<string>)

  predicate Component(c: string) {
    c != "" && c != "." && c != ".." && forall k :: 0 <= k < |c| ==> c[k] != '/'
  }

  predicate WellFormed(a: AbsPath) {
    (a.lead == 1 || a.lead == 2) && forall i :: 0 <= i < |a.comps| ==> Component(a.comps[i])
  }

  /** The component loop of `posixpath.normpath` for an absolute path: skip "" and ".",
      let ".." drop the last kept component (and do nothing at the root). */
  function Resolve(parts: seq<string>, acc: seq<string>): seq<string>
    decreases |parts|
  {
    if |parts| == 0 then acc
    else
      var p := parts[0];
      var acc' :=
        if p == "" || p == "." then acc
        else if p == ".." then (if |acc| > 0 then acc[..|acc| - 1] else acc)
        else acc + [p];
      Resolve(parts[1..], acc')
  }

  lemma {:induction false} ResolveWellFormed(parts: seq<string>, acc: seq<string>)
    requires forall j, k :: 0 <= j < |parts| && 0 <= k < |parts[j]| ==> parts[j][k] != '/'
    requires forall i :: 0 <= i < |acc| ==> Component(acc[i])
    ensures forall i :: 0 <= i < |Resolve(parts, acc)| ==> Component(Resolve(parts, acc)[i])
    decreases |parts|
  {
    if |parts| > 0 {
      var p := parts[0];
      var acc' :=
        if p == "" || p == "." then acc
        else if p == ".." then (if |acc| > 0 then acc[..|acc| - 1] else acc)
        else acc + [p];
      assert forall i :: 0 <= i < |acc'| ==> Component(acc'[i]);
      ResolveWellFormed(parts[1..], acc');
    }
  }

  /** `posixpath.normpath` of a path that starts with '/'. */
  function Normalise(path: string): (r: AbsPath)
    requires StartsWith(path, "/")
    ensures WellFormed(r)
  {
    SplitPiecesFree(path, '/');
    ResolveWellFormed(Split(path, '/'), []);
    AbsPath(if StartsWith(path, "//") && !StartsWith(path, "///") then 2 else 1,
            Resolve(Split(path, '/'), []))
  }

  function Slashes(n: nat): (r: string)
    ensures |r| == n && AllSlashes(r)
  {
    seq(n, _ => '/')
  }

  /** The string `normpath` returns for a normalised absolute path. */
  function Render(a: AbsPath): string {
    Slashes(a.lead) + Join("/", a.comps)
  }

  /** `os.path.abspath(p)` with `cwd` standing for `os.getcwd()`. */
  function AbsOf(p: string, cwd: string): AbsPath
    requires StartsWith(cwd, "/")
  {
    var joined := if StartsWith(p, "/") then p else PathJoin(cwd, p);
    assert StartsWith(joined, "/");
    Normalise(joined)
  }

  function Abspath(p: string, cwd: string): string
    requires StartsWith(cwd, "/")
  {
    Render(AbsOf(p, cwd))
  }

  lemma RFindAt(s: string, c: char, i: int)
    requires -1 <= i < |s|
    requires i >= 0 ==> s[i] == c
    requires forall k :: i < k < |s| ==> s[k] != c
    ensures RFind(s, c) == i
  {
    if |s| > 0 && i < |s| - 1 {
      RFindAt(s[..|s| - 1], c, i);
    }
  }

  /** The basename of `join(d, n)` is `n` whenever `n` is a non-empty name without '/'. */
  lemma BasenameOfJoin(d: string, n: string)
    requires |n| > 0 && forall k :: 0 <= k < |n| ==> n[k] != '/'
    ensures Basename(PathJoin(d, n)) == n
  {
    assert n[0] != '/';
    var pre := if d == "" || EndsWith(d, "/") then d else d + "/";
    var p := pre + n;
    assert PathJoin(d, n) == p;
    assert |pre| > 0 ==> pre[|pre| - 1] == '/';
    assert forall k :: |pre| - 1 < k < |p| ==> p[k] == n[k - |pre|];
    RFindAt(p, '/', |pre| - 1);
    assert p[|pre|..] == n;
  }

  /** Joining a relative name keeps the directory as a prefix and the name as a suffix. */
  lemma JoinShape(d: string, n: string)
    requires |n| > 0 && n[0] != '/'
    ensures StartsWith(PathJoin(d, n), d)
    ensures EndsWith(PathJoin(d, n), n)
  {
    var p := PathJoin(d, n);
    assert !StartsWith(n, "/");
    if d == "" || EndsWith(d, "/") {
      assert p == d + n;
    } else {
      assert p == d + "/" + n;
    }
    assert p[..|d|] == d;
    assert p[|p| - |n|..] == n;
  }
}
