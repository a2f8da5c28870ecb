/** Key-identifier extraction: `parse_keyid` slices the text that
    `gpg --list-packet <signature>` prints, `get_keyid` upper-cases it, and
    `get_pubkey_path` names the keyring file for that identifier. */
module KeyId {
  import opened Base
  import opened Text
  import opened Machine

  const KEYID: string := "keyid"

  /** The arguments of the sub-process `parse_keyid` starts. */
  function ListPacketArgs(signature: string): seq<string> {
    ["gpg", "--list-packet", signature]
  }

  /** `parse_keyid` once gpg has answered: any text on standard error gives
      None; otherwise the result is the stripped text from six characters
      after the first `keyid` up to the next newline. A missing `keyid`
      raises `ValueError` (from `str.index`). */
  function ParseListing(out: string, err: string): (r: Outcome<Option<string>>)
    ensures err != "" ==> r == Return(None)
    ensures r.Throw? ==> r == Throw(ValueError) && err == ""
    ensures err == "" && Find(out, KEYID) == -1 ==> r == Throw(ValueError)
    ensures r.Return? && r.value.Some? ==> '\n' !in r.value.value
    ensures r.Return? && r.value.Some? ==> Strip(r.value.value) == r.value.value
  {
    if err != "" then Return(None)
    else
      var k := Find(out, KEYID);
      if k == -1 then Throw(ValueError)
      else
        LineClean(out, k + |KEYID| + 1);
        LineFrom(out, k + |KEYID| + 1)
  }

  /** With `keyid` in the output and nothing on standard error, the line
      after it decides: no newline after it raises `ValueError`, otherwise
      the result is that line, stripped. */
  lemma ParseListingLine(out: string, err: string)
    requires err == "" && Find(out, KEYID) >= 0
    ensures var r := ParseListing(out, err);
      var rest := After(out, Find(out, KEYID) + |KEYID| + 1);
      && (r == Throw(ValueError) <==> Find(rest, "\n") == -1)
      && (Find(rest, "\n") >= 0 ==> r == Return(Some(Strip(rest[..Find(rest, "\n")]))))
  {
  }

  /** `out[start:]`: the text from `start` on, empty past the end. */
  function After(out: string, start: nat): (rest: string)
    ensures start <= |out| ==> rest == out[start..]
    ensures start > |out| ==> rest == ""
  {
    if start <= |out| then out[start..] else ""
  }

  /** `out[start:bi].strip()` where `bi` is the first newline at or after
      `start`; `ValueError` when there is none (an index past the end sees
      an empty remainder). */
  function LineFrom(out: string, start: nat): (r: Outcome<Option<string>>)
    ensures var rest := After(out, start);
      && (r == Throw(ValueError) <==> Find(rest, "\n") == -1)
      && (Find(rest, "\n") >= 0 ==> r == Return(Some(Strip(rest[..Find(rest, "\n")]))))
  {
    var rest := After(out, start);
    var nl := Find(rest, "\n");
    if nl == -1 then Throw(ValueError) else Return(Some(Strip(rest[..nl])))
  }

  /** The line read from `start` holds no newline and is already stripped. */
  lemma LineClean(out: string, start: nat)
    ensures var r := LineFrom(out, start);
      r.Return? ==> r.value.Some? && '\n' !in r.value.value && Strip(r.value.value) == r.value.value
  {
    var rest := After(out, start);
    var nl := Find(rest, "\n");
    if nl != -1 {
      var line := rest[..nl];
      assert '\n' !in line by {
        forall i | 0 <= i < |line| ensures line[i] != '\n' {
          OccursAtChar(rest, '\n', i);
        }
      }
      assert '\n' !in Strip(line) by {
        StripWithin(line, '\n');
      }
      assert Strip(Strip(line)) == Strip(line) by {
        StripKeepsTrimmed(Strip(line));
      }
      assert LineFrom(out, start) == Return(Some(Strip(line)));
    }
  }

  /** An occurrence that starts inside `a` and ends by `|a|` is unchanged by appending. */
  lemma OccursAtPrefix(a: string, b: string, pat: string, i: nat)
    requires i + |pat| <= |a|
    ensures OccursAt(a + b, pat, i) <==> OccursAt(a, pat, i)
  {
    assert (a + b)[i..i + |pat|] == a[i..i + |pat|];
  }

  /** Appending text after a first occurrence does not move it. */
  lemma FirstStaysFirst(head: string, tail: string, pat: string)
    requires |pat| <= |head| && Find(head, pat) == |head| - |pat|
    ensures Find(head + tail, pat) == |head| - |pat|
  {
    var k := |head| - |pat|;
    forall i: nat | i <= k
      ensures OccursAt(head + tail, pat, i) <==> OccursAt(head, pat, i)
    {
      OccursAtPrefix(head, tail, pat, i);
    }
    FindIsFirst(head + tail, pat, k);
  }

  /** The line read from `start` is the key text standing there. */
  lemma LineFromKey(out: string, start: nat, key: string, suffix: string)
    requires start <= |out| && out[start..] == key + "\n" + suffix
    requires '\n' !in key
    requires key == [] || (!IsSpace(key[0]) && !IsSpace(key[|key| - 1]))
    ensures LineFrom(out, start) == Return(Some(key))
  {
    var rest := out[start..];
    forall i: nat | i <= |key|
      ensures OccursAt(rest, "\n", i) <==> i == |key|
    {
      OccursAtChar(rest, '\n', i);
      assert i < |key| ==> rest[i] == key[i];
    }
    FindIsFirst(rest, "\n", |key|);
    assert rest[..|key|] == key;
    StripKeepsTrimmed(key);
  }

  /** A listing whose first `keyid` is followed by a space, the key text and
      a newline yields exactly that key text. */
  lemma ParseKeyLine(prefix: string, key: string, suffix: string)
    requires Find(prefix + KEYID, KEYID) == |prefix|
    requires '\n' !in key
    requires key == [] || (!IsSpace(key[0]) && !IsSpace(key[|key| - 1]))
    ensures ParseListing(prefix + KEYID + " " + key + "\n" + suffix, "") == Return(Some(key))
  {
    var head := prefix + KEYID;
    var tail := " " + key + "\n" + suffix;
    var out := head + tail;
    assert out == prefix + KEYID + " " + key + "\n" + suffix;
    FirstStaysFirst(head, tail, KEYID);
    assert out[|head| + 1..] == key + "\n" + suffix;
    LineFromKey(out, |head| + 1, key, suffix);
  }

  /** `get_keyid` once gpg has answered: the parsed identifier upper-cased;
      None (gpg complained) makes `.upper()` raise `AttributeError`. */
  function KeyidOf(run: ToolRun): (r: Outcome<string>)
    ensures ParseListing(run.out, run.err) == Return(None) <==> r == Throw(AttributeError)
    ensures ParseListing(run.out, run.err).Throw? <==> r == Throw(ValueError)
    ensures forall k :: ParseListing(run.out, run.err) == Return(Some(k)) ==> r == Return(Upper(k))
    ensures r.Return? ==> '\n' !in r.value && forall i :: 0 <= i < |r.value| ==> !('a' <= r.value[i] <= 'z')
  {
    var parsed := ParseListing(run.out, run.err);
    if parsed.Throw? then Throw(parsed.exc)
    else if parsed.value.None? then Throw(AttributeError)
    else
      Return(Upper(parsed.value.value))
  }

  /** What `get_keyid` gives on a host holding `files` and `environ`: the
      name `Popen` is looked up first, and it is unbound unless the module
      fell back to the command-line engine. */
  function Keyid(world: World, files: map<string, Bytes>, environ: map<string, string>, signature: string): Outcome<string> {
    if !world.popenBound then Throw(NameError)
    else KeyidOf(world.gpg(ListPacketArgs(signature), files, environ))
  }

  /** The sub-processes `get_keyid` leaves behind: one listing, or none when
      `Popen` is unbound. */
  function ListingCalls(world: World, files: map<string, Bytes>, environ: map<string, string>, signature: string): seq<Call> {
    if world.popenBound then [Run(ListPacketArgs(signature), world.gpg(ListPacketArgs(signature), files, environ))]
    else []
  }

  /** `get_keyid(signature)`: runs `gpg --list-packet` on the signature file;
      with `Popen` unbound it raises `NameError` and runs nothing. */
  method GetKeyid(host: Host, world: World, signature: string) returns (r: Outcome<string>)
    modifies host`calls
    ensures host.files == old(host.files) && host.dirs == old(host.dirs) && host.environ == old(host.environ)
    ensures host.calls == old(host.calls) + ListingCalls(world, old(host.files), old(host.environ), signature)
    ensures r == Keyid(world, old(host.files), old(host.environ), signature)
  {
    if !world.popenBound {
      return Throw(NameError);
    }
    var run := world.gpg(ListPacketArgs(signature), host.files, host.environ);
    host.Record(Run(ListPacketArgs(signature), run));
    r := KeyidOf(run);
  }

  /** `get_pubkey_path` once the key id is known: `<scriptDir>/keyring/<KEYID>.pkey`. */
  function PubkeyPath(scriptDir: string, keyid: string): (p: string)
    ensures StartsWith(p, scriptDir)
    ensures EndsWith(p, "/keyring/" + keyid + ".pkey")
  {
    var p := scriptDir + "/keyring/" + keyid + ".pkey";
    assert p[..|scriptDir|] == scriptDir;
    assert p[|p| - |"/keyring/" + keyid + ".pkey"|..] == "/keyring/" + keyid + ".pkey";
    p
  }

  /** The keyring is consulted by identifier alone: distinct identifiers name
      distinct key files. */
  lemma PubkeyPathInjective(scriptDir: string, k1: string, k2: string)
    requires PubkeyPath(scriptDir, k1) == PubkeyPath(scriptDir, k2)
    ensures k1 == k2
  {
    var p := PubkeyPath(scriptDir, k1);
    var lead := |scriptDir + "/keyring/"|;
    assert |k1| == |k2|;
    assert k1 == p[lead..lead + |k1|];
    assert k2 == p[lead..lead + |k2|];
  }

  /** A listing whose first line carries the key id gives that id, upper-cased. */
  lemma ExampleListing(key: string, rest: string)
    requires key == "5f1a2b3c4d5e6f70" && rest == "\tversion 4, created 1555555555\n"
    ensures KeyidOf(ToolRun(KEYID + " " + key + "\n" + rest, "", 0)) == Return("5F1A2B3C4D5E6F70")
  {
    assert OccursAt(KEYID, KEYID, 0);
    FindIsFirst(KEYID, KEYID, 0);
    assert "" + KEYID == KEYID;
    ParseKeyLine("", key, rest);
    UpperHex();
  }

  lemma UpperHex()
    ensures Upper("5f1a2b3c4d5e6f70") == "5F1A2B3C4D5E6F70"
  {
  }
}
