/** The POSIX `os.path` functions the verifier uses: `basename`, `splitext`
    and two-argument `join`. */
module Paths {
  import opened Text

  /** Where the final path component starts: one past the last '/'. */
  function BaseStart(p: string): (k: nat)
    ensures k <= |p|
    ensures k > 0 ==> p[k - 1] == '/'
    ensures forall i :: k <= i < |p| ==> p[i] != '/'
  {
    LastIndexOf(p, '/') + 1
  }

  /** `os.path.basename`: the longest suffix without a '/'. */
  function Basename(p: string): (b: string)
    ensures '/' !in b
    ensures EndsWith(p, b)
    ensures b == p || p[|p| - |b| - 1] == '/'
  {
    var b := p[BaseStart(p)..];
    assert forall k :: 0 <= k < |b| ==> b[k] == p[BaseStart(p) + k];
    b
  }

  /** `os.path.splitext`: splits off the last '.'-suffix of the final
      component, unless every character before that dot in the component
      is itself a dot (so `.gz` and `dir/..gz` have no extension). */
  function Splitext(p: string): (r: (string, string))
    ensures r.0 + r.1 == p
    ensures r.1 == [] || (r.1[0] == '.' && forall k :: 1 <= k < |r.1| ==> r.1[k] != '.' && r.1[k] != '/')
    ensures r.1 != [] <==> exists i, j :: BaseStart(p) <= i < j < |p| && p[i] != '.' && p[j] == '.'
  {
    var sep := LastIndexOf(p, '/');
    var dot := LastIndexOf(p, '.');
    if dot > sep && exists i | sep + 1 <= i < dot :: p[i] != '.' then
      assert forall k :: 1 <= k < |p[dot..]| ==> p[dot..][k] == p[dot + k];
      (p[..dot], p[dot..])
    else
      (p, [])
  }

  /** The final component has a character other than '.' before its last
      `n` characters: the condition under which a suffix counts as an
      extension. */
  predicate HasStem(p: string, n: nat) {
    exists i :: BaseStart(p) <= i < |p| - n && p[i] != '.'
  }

  /** A well-formed extension `e` is what `splitext` returns exactly when the
      path ends in `e` and has a stem before it. */
  lemma ExtensionIs(p: string, e: string)
    requires |e| >= 1 && e[0] == '.'
    requires forall k :: 1 <= k < |e| ==> e[k] != '.' && e[k] != '/'
    ensures Splitext(p).1 == e <==> EndsWith(p, e) && HasStem(p, |e|)
  {
    var ext := Splitext(p).1;
    var start := |p| - |e|;
    if ext == e {
      assert p[|p| - |e|..] == e;
      var i, j :| BaseStart(p) <= i < j < |p| && p[i] != '.' && p[j] == '.';
      assert j <= start;  // no '.' inside the extension after its first character
      assert HasStem(p, |e|);
    }
    if EndsWith(p, e) && HasStem(p, |e|) {
      var i :| BaseStart(p) <= i < |p| - |e| && p[i] != '.';
      assert p[start] == e[0] == '.';
      assert ext != [];
      var estart := |p| - |ext|;
      assert p[estart..] == ext;
      assert p[estart] == '.';
      assert estart == start;  // both suffixes start at the last '.'
    }
  }

  /** `os.path.join(a, b)` for two components. */
  function Join(a: string, b: string): (r: string)
    ensures StartsWith(b, "/") ==> r == b
    ensures !StartsWith(b, "/") ==> EndsWith(r, b) && StartsWith(r, a)
    ensures !StartsWith(b, "/") && a == [] ==> r == b
    ensures !StartsWith(b, "/") && a != [] ==> r == (if EndsWith(a, "/") then a else a + "/") + b
  {
    if StartsWith(b, "/") then b
    else if a == [] || EndsWith(a, "/") then a + b
    else a + "/" + b
  }

  /** Joining a directory and a bare file name gives a path whose basename is
      that file name. */
  lemma JoinBasename(a: string, b: string)
    requires '/' !in b
    ensures Basename(Join(a, b)) == b
  {
    var r := Join(a, b);
    var front := r[..|r| - |b|];
    assert r == front + b;
    assert front == [] || front[|front| - 1] == '/';
    var bn := Basename(r);
    assert |bn| == |b|;  // a longer basename would hold the separator, a shorter one would end inside `b`
    assert bn == r[|r| - |bn|..] == b;
  }
}
