/** `GEMShaVerifier`: checks a `.gem` file against the SHA-256 digest the
    RubyGems registry publishes for its version. The package path is split
    into a gem name and a version, the registry's release list for the name
    is fetched, the one release with that version is selected, and its `sha`
    is compared with the digest of the file. */
module Gem {
  import opened Base
  import opened Text
  import opened Paths
  import opened Machine
  import opened Reporting

  const GEM: string := ".gem"
  const API_PREFIX: string := "https://rubygems.org/api/v1/versions/"
  const API_SUFFIX: string := ".json"
  const BLOCK_SIZE: nat := 4096

  /** `RUBYORG_API.format(name)`. */
  function ApiUrl(name: string): (u: string)
    ensures StartsWith(u, API_PREFIX) && EndsWith(u, name + API_SUFFIX)
  {
    var u := API_PREFIX + name + API_SUFFIX;
    assert u[..|API_PREFIX|] == API_PREFIX;
    assert u[|u| - |name + API_SUFFIX|..] == name + API_SUFFIX;
    u
  }

  // ---------------------------------------------------------------------
  // Release selection: `get_gemnumber_sha`

  /** `[gem for gem in gems if gem.get('number', -100) == number]`. A record
      without a string `number` is compared through the default -100, an
      integer, which never equals a version string. */
  function Matching(gems: seq<GemRecord>, number: string): (m: seq<GemRecord>)
    ensures |m| <= |gems|
    ensures forall k :: 0 <= k < |m| ==> m[k].number == Some(number) && m[k] in gems
  {
    if gems == [] then []
    else
      var rest := Matching(gems[1..], number);
      if gems[0].number == Some(number) then [gems[0]] + rest else rest
  }

  /** `get_gemnumber_sha(gems, number)`: the `sha` of the single matching
      record (None when it has none); None when no record or several match. */
  function GemnumberSha(gems: seq<GemRecord>, number: string): (r: Option<string>)
    ensures |Matching(gems, number)| != 1 ==> r == None
    ensures r.Some? ==> exists i :: 0 <= i < |gems| && gems[i].number == Some(number) && gems[i].sha == r
  {
    var mine := Matching(gems, number);
    if |mine| == 1 then
      assert mine[0] in gems;
      mine[0].sha
    else None
  }

  /** The comprehension distributes over concatenation. */
  lemma {:induction false} MatchingAppend(a: seq<GemRecord>, b: seq<GemRecord>, number: string)
    ensures Matching(a + b, number) == Matching(a, number) + Matching(b, number)
  {
    if a == [] {
      assert a + b == b;
    } else {
      assert (a + b)[0] == a[0];
      assert (a + b)[1..] == a[1..] + b;
      MatchingAppend(a[1..], b, number);
    }
  }

  /** Records that do not carry `number` contribute nothing. */
  lemma {:induction false} MatchingNone(gems: seq<GemRecord>, number: string)
    requires forall j :: 0 <= j < |gems| ==> gems[j].number != Some(number)
    ensures Matching(gems, number) == []
  {
    if gems != [] {
      MatchingNone(gems[1..], number);
    }
  }

  /** The record `i` is the only one with version `number`: its `sha` is the answer. */
  lemma UniqueMatch(gems: seq<GemRecord>, number: string, i: nat)
    requires i < |gems| && gems[i].number == Some(number)
    requires forall j :: 0 <= j < |gems| && j != i ==> gems[j].number != Some(number)
    ensures GemnumberSha(gems, number) == gems[i].sha
  {
    var before, after := gems[..i], gems[i + 1..];
    assert gems == before + [gems[i]] + after;
    MatchingAppend(before + [gems[i]], after, number);
    MatchingAppend(before, [gems[i]], number);
    MatchingNone(before, number);
    forall j | 0 <= j < |after| ensures after[j].number != Some(number) {
      assert after[j] == gems[i + 1 + j];
    }
    MatchingNone(after, number);
    assert Matching([gems[i]], number) == [gems[i]];
  }

  /** Two records with version `number`: no answer. */
  lemma AmbiguousMatch(gems: seq<GemRecord>, number: string, i: nat, j: nat)
    requires i < j < |gems| && gems[i].number == Some(number) && gems[j].number == Some(number)
    ensures GemnumberSha(gems, number) == None
  {
    var a, b, c := gems[..i], gems[i + 1..j], gems[j + 1..];
    assert gems == a + [gems[i]] + b + [gems[j]] + c;
    MatchingAppend(a + [gems[i]] + b + [gems[j]], c, number);
    MatchingAppend(a + [gems[i]] + b, [gems[j]], number);
    MatchingAppend(a + [gems[i]], b, number);
    MatchingAppend(a, [gems[i]], number);
    assert Matching([gems[i]], number) == [gems[i]];
    assert Matching([gems[j]], number) == [gems[j]];
  }

  /** No record with version `number`: no answer. */
  lemma NoMatch(gems: seq<GemRecord>, number: string)
    requires forall j :: 0 <= j < |gems| ==> gems[j].number != Some(number)
    ensures GemnumberSha(gems, number) == None
  {
    MatchingNone(gems, number);
  }

  /** A record without a version can be inserted anywhere without changing the answer. */
  lemma NumberlessIgnored(a: seq<GemRecord>, b: seq<GemRecord>, g: GemRecord, number: string)
    requires g.number.None?
    ensures GemnumberSha(a + [g] + b, number) == GemnumberSha(a + b, number)
  {
    MatchingAppend(a + [g], b, number);
    MatchingAppend(a, [g], number);
    MatchingAppend(a, b, number);
    assert Matching([g], number) == [];
  }

  // ---------------------------------------------------------------------
  // Name and version: `re.split('-\d+\.', path)` and the two `replace` calls

  /** The end of the run of digits starting at `k`. */
  function DigitsEnd(s: string, k: nat): (j: nat)
    requires k <= |s|
    ensures k <= j <= |s|
    ensures forall i :: k <= i < j ==> IsDigit(s[i])
    ensures j == |s| || !IsDigit(s[j])
    decreases |s| - k
  {
    if k < |s| && IsDigit(s[k]) then DigitsEnd(s, k + 1) else k
  }

  /** The pattern `-\d+\.` matches at `i`. The digit run is greedy, and a
      shorter run would be followed by a digit rather than a '.', so the
      pattern matches exactly when the longest run is non-empty and a '.'
      follows it. */
  predicate MatchAt(s: string, i: nat) {
    i < |s| && s[i] == '-' && var j := DigitsEnd(s, i + 1); j > i + 1 && j < |s| && s[j] == '.'
  }

  /** `-\d+\.` read literally: a '-', `n > 0` digits, then a '.'. */
  predicate PatternAt(s: string, i: nat, n: nat) {
    && n > 0 && i + n + 1 < |s| && s[i] == '-' && s[i + n + 1] == '.'
    && forall k :: i < k <= i + n ==> IsDigit(s[k])
  }

  /** `MatchAt` is the pattern: some number of digits fits between the '-'
      and the '.' exactly when the longest run does. */
  lemma MatchAtIsPattern(s: string, i: nat)
    ensures MatchAt(s, i) <==> exists n :: PatternAt(s, i, n)
  {
    if MatchAt(s, i) {
      assert PatternAt(s, i, DigitsEnd(s, i + 1) - i - 1);
    }
    if n :| PatternAt(s, i, n) {
      DigitsEndAt(s, i + 1, n);
    }
  }

  /** Where a match at `i` ends (one past its '.'). */
  function MatchEnd(s: string, i: nat): (e: nat)
    requires MatchAt(s, i)
    ensures i + 3 <= e <= |s| && s[e - 1] == '.'
    ensures forall k :: i < k < e ==> s[k] != '-'
  {
    DigitsEnd(s, i + 1) + 1
  }

  /** The start of every match `re.split` splits at, scanning from `from`:
      leftmost first, then from the end of that match on. */
  function MatchesFrom(s: string, from: nat): (ms: seq<nat>)
    ensures forall k :: 0 <= k < |ms| ==> from <= ms[k] && MatchAt(s, ms[k])
    decreases |s| - from
  {
    if from >= |s| then []
    else if MatchAt(s, from) then [from] + MatchesFrom(s, MatchEnd(s, from))
    else MatchesFrom(s, from + 1)
  }

  /** With no match at or after `from`, nothing is split. */
  lemma {:induction false} NoMatchFrom(s: string, from: nat)
    requires forall k :: from <= k < |s| ==> !MatchAt(s, k)
    ensures MatchesFrom(s, from) == []
    decreases |s| - from
  {
    if from < |s| {
      NoMatchFrom(s, from + 1);
    }
  }

  /** The scan from `from` first stops at the leftmost match `m`. */
  lemma {:induction false} FirstMatch(s: string, from: nat, m: nat)
    requires from <= m && MatchAt(s, m)
    requires forall k :: from <= k < m ==> !MatchAt(s, k)
    ensures MatchesFrom(s, from) == [m] + MatchesFrom(s, MatchEnd(s, m))
    decreases m - from
  {
    if from < m {
      FirstMatch(s, from + 1, m);
    }
  }

  /** Any match found is a match of the string, so a string without one is
      never split. */
  lemma {:induction false} MatchesAreMatches(s: string, from: nat)
    ensures MatchesFrom(s, from) != [] ==> exists k :: from <= k < |s| && MatchAt(s, k)
  {
    var ms := MatchesFrom(s, from);
    if ms != [] {
      assert from <= ms[0] < |s| && MatchAt(s, ms[0]);
    }
  }

  /** `os.path.basename(path).replace('.gem', '')`: only the final
      component counts, and every `.gem` in it is dropped. */
  function GemName(path: string): (g: string)
    ensures g == RemoveAll(Basename(path), GEM)
    ensures '/' !in g
  {
    var b := Basename(path);
    var g := RemoveAll(b, GEM);
    RemoveAllKeeps(b, GEM);
    assert forall k :: 0 <= k < |g| ==> g[k] != '/' by {
      forall k | 0 <= k < |g| ensures g[k] != '/' {
        assert g[k] in b;
      }
    }
    g
  }

  /** Lines 256-258 of `verify`: `name, _ = re.split('-\d+\.', path)` (which
      raises `ValueError` unless there are exactly two pieces) and the
      version `gemname.replace(name + '-', '')`. */
  function NameAndVersion(path: string): (r: Outcome<(string, string)>)
    ensures r.Throw? ==> r.exc == ValueError
    ensures r.Return? ==> StartsWith(path, r.value.0) && MatchAt(path, |r.value.0|)
    ensures r.Return? ==> r.value.1 == RemoveAll(GemName(path), r.value.0 + "-")
  {
    var ms := MatchesFrom(path, 0);
    if |ms| != 1 then Throw(ValueError)
    else
      var name := path[..ms[0]];
      Return((name, RemoveAll(GemName(path), name + "-")))
  }

  /** The split succeeds exactly when the pattern matches at one place, and
      the name is everything before that place. */
  lemma NameIsBeforeSingleMatch(path: string, i: nat)
    ensures (NameAndVersion(path).Return? && |NameAndVersion(path).value.0| == i)
      <==> (MatchAt(path, i) && forall k: nat :: MatchAt(path, k) ==> k == i)
  {
    var ms := MatchesFrom(path, 0);
    if MatchAt(path, i) && forall k: nat :: MatchAt(path, k) ==> k == i {
      FirstMatch(path, 0, i);
      forall k | MatchEnd(path, i) <= k < |path| ensures !MatchAt(path, k) {
      }
      NoMatchFrom(path, MatchEnd(path, i));
      assert ms == [i];
    }
    if NameAndVersion(path).Return? && |NameAndVersion(path).value.0| == i {
      assert |ms| == 1 && ms[0] == i;
      forall j | 0 <= j < i ensures !MatchAt(path, j) {
        if MatchAt(path, j) {
          FirstLeftmost(path, 0, j);
        }
      }
      forall k: nat | MatchAt(path, k) ensures k == i {
        if k > i {
          LaterMatch(path, i, k);
        }
      }
    }
  }

  /** The scan from `from` never skips a match. */
  lemma {:induction false} FirstLeftmost(s: string, from: nat, k: nat)
    requires from <= k && MatchAt(s, k)
    ensures MatchesFrom(s, from) != [] && MatchesFrom(s, from)[0] <= k
    decreases k - from
  {
    if from < k && !MatchAt(s, from) {
      FirstLeftmost(s, from + 1, k);
    }
  }

  /** A second match after the first makes the scan find at least two. */
  lemma LaterMatch(s: string, i: nat, k: nat)
    requires MatchAt(s, i) && MatchAt(s, k) && i < k
    requires forall j :: 0 <= j < i ==> !MatchAt(s, j)
    ensures |MatchesFrom(s, 0)| >= 2
  {
    FirstMatch(s, 0, i);
    assert MatchEnd(s, i) <= k;  // the characters of a match other than its first are not '-'
    FirstLeftmost(s, MatchEnd(s, i), k);
  }

  /** A directory in front of the file name stays in the name (the split
      runs on the whole path), so `name + '-'` holds a '/' that the file
      name cannot contain, and the version is the whole file name. */
  lemma DirectoryStaysInName(path: string)
    requires NameAndVersion(path).Return? && '/' in NameAndVersion(path).value.0
    ensures NameAndVersion(path).value.1 == GemName(path)
  {
    CharNeverOccurs(GemName(path), NameAndVersion(path).value.0 + "-", '/');
  }

  /** A pattern holding a character the text lacks is not removed from it. */
  lemma CharNeverOccurs(g: string, pat: string, c: char)
    requires c !in g && c in pat
    ensures RemoveAll(g, pat) == g
  {
    var m :| 0 <= m < |pat| && pat[m] == c;
    forall i: nat ensures !OccursAt(g, pat, i) {
    }
    RemoveAllAbsent(g, pat);
  }

  /** A run of `n` digits starting at `k` and ended by a non-digit. */
  lemma {:induction false} DigitsEndAt(s: string, k: nat, n: nat)
    requires k + n < |s| && !IsDigit(s[k + n])
    requires forall i :: k <= i < k + n ==> IsDigit(s[i])
    ensures DigitsEnd(s, k) == k + n
    decreases n
  {
    if n > 0 {
      DigitsEndAt(s, k + 1, n - 1);
    }
  }

  /** A version as `-\d+\.` expects it: digits, a '.', then digits and dots. */
  predicate IsVersion(major: string, rest: string) {
    && |major| > 0 && (forall i :: 0 <= i < |major| ==> IsDigit(major[i]))
    && forall i :: 0 <= i < |rest| ==> IsDigit(rest[i]) || rest[i] == '.'
  }

  /** The characters of `<stem>-<version>.gem`, position by position. */
  lemma GemFileChars(stem: string, version: string, i: nat)
    requires i < |stem + "-" + version + GEM|
    ensures var path := stem + "-" + version + GEM;
      && (i < |stem| ==> path[i] == stem[i])
      && (i == |stem| ==> path[i] == '-')
      && (|stem| < i <= |stem| + |version| ==> path[i] == version[i - |stem| - 1])
      && (|stem| + |version| < i ==> path[i] == GEM[i - |stem| - |version| - 1])
  {
  }

  /** Inside a stem without '.', the pattern cannot match: the digits after
      a '-' stop at the latest at the '-' before the version, and no '.'
      comes first. */
  lemma NoMatchInStem(stem: string, version: string, k: nat)
    requires '.' !in stem && k < |stem|
    ensures !MatchAt(stem + "-" + version + GEM, k)
  {
    var path := stem + "-" + version + GEM;
    var n := |stem|;
    GemFileChars(stem, version, n);
    var j := DigitsEnd(path, k + 1);
    assert j <= n;
    GemFileChars(stem, version, j);
  }

  /** In `<stem>-<version>.gem` the pattern matches only after the stem. */
  lemma StemSplit(stem: string, major: string, rest: string)
    requires '.' !in stem && IsVersion(major, rest)
    ensures var path := stem + "-" + (major + "." + rest) + GEM;
      MatchAt(path, |stem|) && forall k: nat :: MatchAt(path, k) ==> k == |stem|
  {
    var version := major + "." + rest;
    var path := stem + "-" + version + GEM;
    var n := |stem|;
    forall k: nat | k < n ensures !MatchAt(path, k) {
      NoMatchInStem(stem, version, k);
    }
    forall k: nat | n < k < |path| ensures path[k] != '-' {
      GemFileChars(stem, version, k);
      if n < k <= n + |version| {
        var j := k - n - 1;
        assert j < |major| || j == |major| || version[j] == rest[j - |major| - 1];
      }
    }
    forall i | n + 1 <= i < n + 1 + |major| ensures IsDigit(path[i]) {
      GemFileChars(stem, version, i);
      assert version[i - n - 1] == major[i - n - 1];
    }
    GemFileChars(stem, version, n + 1 + |major|);
    DigitsEndAt(path, n + 1, |major|);
  }

  /** `basename` and `.replace('.gem', '')` leave `<stem>-<version>`. */
  lemma StemGemName(stem: string, major: string, rest: string)
    requires '/' !in stem && '.' !in stem && IsVersion(major, rest)
    ensures GemName(stem + "-" + (major + "." + rest) + GEM) == stem + "-" + (major + "." + rest)
  {
    var version := major + "." + rest;
    var file := stem + "-" + version;
    var path := file + GEM;
    forall i | 0 <= i < |version| ensures IsDigit(version[i]) || version[i] == '.' {
      if i > |major| {
        assert version[i] == rest[i - |major| - 1];
      }
    }
    forall i | 0 <= i < |path| ensures path[i] != '/' {
      GemFileChars(stem, version, i);
    }
    assert Basename(path) == path;
    forall i: nat | i < |file| ensures !OccursAt(file + GEM, GEM, i) {
      GemFileChars(stem, version, i);
      GemFileChars(stem, version, i + 1);
    }
    RemoveAllTrailing(file, GEM);
  }

  /** In `<stem>-<version>.gem` the split leaves the stem as the name. */
  lemma BareGemName(stem: string, major: string, rest: string)
    requires '.' !in stem && IsVersion(major, rest)
    ensures var path := stem + "-" + (major + "." + rest) + GEM;
      NameAndVersion(path).Return? && NameAndVersion(path).value.0 == stem
  {
    var path := stem + "-" + (major + "." + rest) + GEM;
    StemSplit(stem, major, rest);
    NameIsBeforeSingleMatch(path, |stem|);
    assert path[..|stem|] == stem;
  }

  /** A version has no '-'. */
  lemma VersionHasNoDash(major: string, rest: string)
    requires IsVersion(major, rest)
    ensures '-' !in major + "." + rest
  {
    var version := major + "." + rest;
    forall i | 0 <= i < |version| ensures version[i] != '-' {
      if i > |major| {
        assert version[i] == rest[i - |major| - 1];
      }
    }
  }

  /** `<stem>-<version>.gem`, with a stem free of '/' and '.' (it may hold
      '-', as in `rack-test`), splits into the stem and the version. */
  lemma BareGemFile(stem: string, major: string, rest: string)
    requires '/' !in stem && '.' !in stem
    requires IsVersion(major, rest)
    ensures NameAndVersion(stem + "-" + (major + "." + rest) + GEM) == Return((stem, major + "." + rest))
  {
    var version := major + "." + rest;
    BareGemName(stem, major, rest);
    StemGemName(stem, major, rest);
    VersionHasNoDash(major, rest);
    CharNeverOccurs(version, stem + "-", '-');
    assert stem + "-" + version == (stem + "-") + version;
    RemoveAllLeading(version, stem + "-");
  }

  /** `rack-test-2.0.0.gem` splits into `rack-test` and `2.0.0`. */
  lemma BareFileName(stem: string, major: string, rest: string)
    requires stem == "rack-test" && major == "2" && rest == "0.0"
    ensures NameAndVersion(stem + "-" + (major + "." + rest) + GEM) == Return(("rack-test", "2.0.0"))
  {
    ExampleVersion(major, rest);
    BareGemFile(stem, major, rest);
  }

  lemma ExampleVersion(major: string, rest: string)
    requires major == "2" && rest == "0.0"
    ensures IsVersion(major, rest) && major + "." + rest == "2.0.0"
  {
  }

  // ---------------------------------------------------------------------
  // The digest: `calc_sha`

  /** The bytes of `blocks`, in order. */
  function Flatten(blocks: seq<Bytes>): Bytes {
    if blocks == [] then [] else blocks[0] + Flatten(blocks[1..])
  }

  /** How `iter(lambda: gem.read(4096), b'')` cuts a file: blocks of 4096
      bytes, then one shorter, non-empty block; no block for an empty file. */
  function Blocks(data: Bytes): (blocks: seq<Bytes>)
    ensures Flatten(blocks) == data
    ensures forall i :: 0 <= i < |blocks| ==> 0 < |blocks[i]| <= BLOCK_SIZE
    ensures forall i :: 0 <= i < |blocks| - 1 ==> |blocks[i]| == BLOCK_SIZE
    decreases |data|
  {
    if data == [] then []
    else if |data| <= BLOCK_SIZE then
      assert Flatten([data]) == data + Flatten([]);
      [data]
    else
      var rest := Blocks(data[BLOCK_SIZE..]);
      assert ([data[..BLOCK_SIZE]] + rest)[1..] == rest;
      assert data[..BLOCK_SIZE] + data[BLOCK_SIZE..] == data;
      [data[..BLOCK_SIZE]] + rest
  }

  /** Reading from `pos` takes the next block, up to 4096 bytes, and leaves
      the rest to be cut the same way. */
  lemma BlocksStep(data: Bytes, pos: nat, end: nat)
    requires pos < |data|
    requires end == if pos + BLOCK_SIZE <= |data| then pos + BLOCK_SIZE else |data|
    ensures Blocks(data[pos..]) == [data[pos..end]] + Blocks(data[end..])
  {
    var tail := data[pos..];
    if end == |data| {
      assert data[pos..end] == tail;
      assert data[end..] == [];
    } else {
      assert tail[..BLOCK_SIZE] == data[pos..end];
      assert tail[BLOCK_SIZE..] == data[end..];
    }
  }

  lemma AdjacentSlices(data: Bytes, pos: nat, end: nat)
    requires pos <= end <= |data|
    ensures data[..pos] + data[pos..end] == data[..end]
  {
  }

  lemma Regroup(a: seq<Bytes>, b: seq<Bytes>, c: seq<Bytes>)
    ensures (a + b) + c == a + (b + c)
  {
  }

  /** A `hashlib.sha256()` object; the digest itself is not modelled, only
      which bytes were fed to it. */
  class Sha256 {
    var fed: Bytes

    constructor ()
      ensures fed == []
    {
      fed := [];
    }

    /** `update(block)`. */
    method Update(block: Bytes)
      modifies this
      ensures fed == old(fed) + block
    {
      fed := fed + block;
    }

    /** `hexdigest()`. */
    function HexDigest(world: World): string
      reads this
    {
      world.sha256(fed)
    }
  }

  /** `calc_sha(path)`: reads the file block by block into the hasher. The
      digest is the digest of the whole file, and `read` is the sequence of
      blocks the loop read. A path that names no file raises `OSError`. */
  method CalcSha(host: Host, world: World, path: string) returns (r: Outcome<string>, ghost read: seq<Bytes>)
    ensures path !in host.files ==> r == Throw(OSError)
    ensures path in host.files ==> r == Return(world.sha256(host.files[path])) && read == Blocks(host.files[path])
  {
    read := [];
    if path !in host.files {
      return Throw(OSError), read;
    }
    var data := host.files[path];
    var sha := new Sha256();
    var pos := 0;
    while pos < |data|
      invariant pos <= |data|
      invariant sha.fed == data[..pos]
      invariant read + Blocks(data[pos..]) == Blocks(data)
      decreases |data| - pos
    {
      var end := if pos + BLOCK_SIZE <= |data| then pos + BLOCK_SIZE else |data|;
      var block := data[pos..end];
      BlocksStep(data, pos, end);
      AdjacentSlices(data, pos, end);
      Regroup(read, [block], Blocks(data[end..]));
      sha.Update(block);
      read := read + [block];
      pos := end;
    }
    assert data[..pos] == data;
    r := Return(sha.HexDigest(world));
  }

  // ---------------------------------------------------------------------
  // The registry: `get_rubygems_info`

  /** What `json.loads` gives for the registry's answer: a list of records,
      None for JSON `null`; text that is not JSON raises `ValueError`, a
      transfer error raises `pycurl.error`. */
  function Decoded(answer: Registry): (info: Outcome<Option<seq<GemRecord>>>)
    ensures info.Throw? <==> answer.BadJson? || answer.Unreachable?
    ensures info == Return(None) <==> answer.JsonNull?
    ensures answer.Releases? ==> info == Return(Some(answer.records))
    ensures answer.BadJson? ==> info == Throw(ValueError)
    ensures answer.Unreachable? ==> info == Throw(CurlError)
  {
    match answer
    case Releases(records) => Return(Some(records))
    case JsonNull => Return(None)
    case BadJson => Throw(ValueError)
    case Unreachable => Throw(CurlError)
  }

  /** `get_rubygems_info(name)`: one query to the registry's versions endpoint. */
  method GetRubygemsInfo(host: Host, world: World, name: string) returns (r: Outcome<Option<seq<GemRecord>>>)
    modifies host`calls
    ensures host.calls == old(host.calls) + [Query(ApiUrl(name), world.registry(ApiUrl(name)))]
    ensures r == Decoded(world.registry(ApiUrl(name)))
  {
    var answer := world.registry(ApiUrl(name));
    host.Record(Query(ApiUrl(name), answer));
    r := Decoded(answer);
  }

  // ---------------------------------------------------------------------
  // The verifier

  /** What a successful gem verification establishes: the file exists, its
      path names a gem and a version, the registry lists that gem, exactly
      one of its releases has that version, and that release's digest is the
      digest of the file. */
  ghost predicate Published(world: World, files: map<string, Bytes>, path: string) {
    && path in files
    && NameAndVersion(path).Return?
    && var (name, number) := NameAndVersion(path).value;
       var info := Decoded(world.registry(ApiUrl(name)));
       && info.Return? && info.value.Some?
       && GemnumberSha(info.value.value, number) == Some(world.sha256(files[path]))
  }

  class GemShaVerifier {
    var url: Option<string>
    var packageSignPath: Option<string>
    /** The `package_path` attribute; None while the object has none. */
    var packagePath: Option<string>

    /** `GEMShaVerifier(**kwargs)` as written: only the base class runs, which
        keeps `url` and `package_sign_path`, so the object never gets a
        `package_path` attribute. */
    constructor (url: Option<string>, packageSignPath: Option<string>)
      ensures this.url == url && this.packageSignPath == packageSignPath
      ensures packagePath == None
    {
      this.url := url;
      this.packageSignPath := packageSignPath;
      packagePath := None;
    }

    /** The constructor as `verify` needs it: it also keeps `package_path`. */
    constructor WithPackagePath(url: Option<string>, packagePath: string, packageSignPath: Option<string>)
      ensures this.url == url && this.packageSignPath == packageSignPath
      ensures this.packagePath == Some(packagePath)
    {
      this.url := url;
      this.packageSignPath := packageSignPath;
      this.packagePath := Some(packagePath);
    }

    /** `verify()`. Reading a missing `package_path` raises `AttributeError`.
        Otherwise the path is split into name and version (`ValueError`
        unless the pattern matches once), the registry is asked once for the
        name, and the result is whether the one release with that version
        carries the digest of the file. A JSON `null` answer raises
        `TypeError` in `get_gemnumber_sha`, before the `geminfo is None` test
        could see it. */
    method Verify(host: Host, world: World) returns (r: Outcome<bool>)
      modifies host`calls, host`reports
      ensures packagePath.None? ==>
        r == Throw(AttributeError) && host.calls == old(host.calls) && host.reports == old(host.reports)
      ensures host.files == old(host.files)
      ensures packagePath.Some? ==> (r == Return(true) <==> Published(world, host.files, packagePath.value))
      ensures packagePath.Some? && NameAndVersion(packagePath.value).Throw? ==>
        r == Throw(ValueError) && host.calls == old(host.calls) && host.reports == old(host.reports)
      ensures packagePath.Some? && NameAndVersion(packagePath.value).Return? ==>
        var path := packagePath.value;
        var (name, number) := NameAndVersion(path).value;
        var info := Decoded(world.registry(ApiUrl(name)));
        && host.calls == old(host.calls) + [Query(ApiUrl(name), world.registry(ApiUrl(name)))]
        && (info.Throw? ==> r == Throw(info.exc) && host.reports == old(host.reports))
        && (info == Return(None) ==> r == Throw(TypeError) && host.reports == old(host.reports))
        && (info.Return? && info.value.Some? && path !in host.files ==>
              r == Throw(OSError) && host.reports == old(host.reports))
        && (info.Return? && info.value.Some? && path in host.files ==>
              var verdict := GemnumberSha(info.value.value, number) == Some(world.sha256(host.files[path]));
              r == Return(verdict) && host.reports == old(host.reports) + [ResultReport(url, verdict, "")])
    {
      if packagePath.None? {
        return Throw(AttributeError);
      }
      var path := packagePath.value;
      var split := NameAndVersion(path);
      if split.Throw? {
        return Throw(split.exc);
      }
      var (name, number) := split.value;
      r := CheckRelease(host, world, path, name, number);
    }

    /** Lines 259-267 of `verify()` once `path` has been split into `name`
        and `number`: ask the registry, then compare the release's digest
        with the file's. */
    method CheckRelease(host: Host, world: World, path: string, name: string, number: string)
      returns (r: Outcome<bool>)
      modifies host`calls, host`reports
      ensures host.files == old(host.files)
      ensures host.calls == old(host.calls) + [Query(ApiUrl(name), world.registry(ApiUrl(name)))]
      ensures var info := Decoded(world.registry(ApiUrl(name)));
        && (info.Throw? ==> r == Throw(info.exc) && host.reports == old(host.reports))
        && (info == Return(None) ==> r == Throw(TypeError) && host.reports == old(host.reports))
        && (info.Return? && info.value.Some? && path !in host.files ==>
              r == Throw(OSError) && host.reports == old(host.reports))
        && (info.Return? && info.value.Some? && path in host.files ==>
              var verdict := GemnumberSha(info.value.value, number) == Some(world.sha256(host.files[path]));
              r == Return(verdict) && host.reports == old(host.reports) + [ResultReport(url, verdict, "")])
    {
      var info := GetRubygemsInfo(host, world, name);
      if info.Throw? {
        return Throw(info.exc);
      }
      if info.value.None? {
        // iterating None in the list comprehension
        return Throw(TypeError);
      }
      var gemsha := GemnumberSha(info.value.value, number);
      ghost var read;
      var calcsha;
      calcsha, read := CalcSha(host, world, path);
      if calcsha.Throw? {
        return Throw(calcsha.exc);
      }
      var verdict := gemsha == Some(calcsha.value);
      host.Say(ResultReport(url, verdict, ""));
      r := Return(verdict);
    }
  }

  /** As written, verifying a gem raises `AttributeError` whatever the host
      and the registry hold, before any call is made. */
  method VerifyAsWritten(host: Host, world: World, url: Option<string>, packageSignPath: Option<string>)
    returns (r: Outcome<bool>)
    modifies host`calls, host`reports
    ensures r == Throw(AttributeError)
    ensures host.calls == old(host.calls) && host.reports == old(host.reports)
  {
    var v := new GemShaVerifier(url, packageSignPath);
    r := v.Verify(host, world);
  }
}
