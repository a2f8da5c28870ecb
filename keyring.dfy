/** Temporary keyrings and the two signature engines: the `gpg` program
    (`GPGCli`, `cli_gpg_ctx`, `verify_cli`) and the gpgme binding (`gpg_ctx`,
    `verify_gpgme`). A keyring directory made for one verification is
    announced through `GNUPGHOME` and released in a `finally` block. */
module Keyring {
  import opened Base
  import opened Text
  import opened Machine

  /** Where `tempfile.mkdtemp(prefix='tmp.gpghome')` puts its directories. */
  const TEMP_PREFIX: string := "/tmp/tmp.gpghome"

  /** `p` is `d` itself or lies below it. */
  predicate Under(p: string, d: string) {
    p == d || StartsWith(p, d + "/")
  }

  /** What is left of a set of paths once the tree at `d` is removed. */
  function Prune(paths: set<string>, d: string): (r: set<string>)
    ensures forall p :: p in r <==> p in paths && !Under(p, d)
  {
    set p | p in paths && !Under(p, d)
  }

  /** What is left of the files once the tree at `d` is removed. */
  function PruneFiles(files: map<string, Bytes>, d: string): (r: map<string, Bytes>)
    ensures forall p :: p in r <==> p in files && !Under(p, d)
    ensures forall p :: p in r ==> r[p] == files[p]
  {
    map p | p in files && !Under(p, d) :: files[p]
  }

  /** A length no path in `paths` exceeds. */
  ghost function MaxLen(paths: set<string>): (n: nat)
    ensures forall p :: p in paths ==> |p| <= n
    decreases paths
  {
    if paths == {} then 0
    else
      var p :| p in paths;
      var m := MaxLen(paths - {p});
      if |p| > m then |p| else m
  }

  /** Some name with the temporary prefix has nothing at or below it. */
  lemma FreshNameExists(paths: set<string>)
    ensures exists d :: StartsWith(d, TEMP_PREFIX) && forall p :: p in paths ==> !Under(p, d)
  {
    var d := TEMP_PREFIX + seq(MaxLen(paths) + 1, _ => 'x');
    assert d[..|TEMP_PREFIX|] == TEMP_PREFIX;
    forall p | p in paths
      ensures !Under(p, d)
    {
      assert |p| < |d|;
    }
    assert StartsWith(d, TEMP_PREFIX) && forall p :: p in paths ==> !Under(p, d);
  }

  /** `tempfile.mkdtemp(prefix='tmp.gpghome')`: a new, empty directory whose
      name nothing on disk starts from. */
  method Mkdtemp(host: Host) returns (d: string)
    requires host.Valid()
    modifies host`dirs
    ensures host.Valid()
    ensures StartsWith(d, TEMP_PREFIX)
    ensures forall p :: p in old(host.files) || p in old(host.dirs) ==> !Under(p, d)
    ensures host.dirs == old(host.dirs) + {d}
  {
    FreshNameExists(host.files.Keys + host.dirs);
    d :| StartsWith(d, TEMP_PREFIX) && forall p :: p in host.files.Keys + host.dirs ==> !Under(p, d);
    host.dirs := host.dirs + {d};
  }

  /** `shutil.rmtree(d, ignore_errors=True)`: removes `d` and everything below
      it; a missing tree is not an error. */
  method Rmtree(host: Host, d: string)
    requires host.Valid()
    modifies host`files, host`dirs
    ensures host.Valid()
    ensures host.dirs == Prune(old(host.dirs), d)
    ensures host.files == PruneFiles(old(host.files), d)
  {
    host.dirs := Prune(host.dirs, d);
    host.files := PruneFiles(host.files, d);
  }

  /** Removing a freshly made directory gives back the directories and files
      that were there before it was made. */
  lemma PruneFresh(dirs: set<string>, files: map<string, Bytes>, d: string)
    requires forall p :: p in files || p in dirs ==> !Under(p, d)
    ensures Prune(dirs + {d}, d) == dirs
    ensures PruneFiles(files, d) == files
  {
  }

  /** A `GPGCli` object: the argument list its `verify` starts with. */
  datatype GpgCli = GpgCli(args: seq<string>)

  const VERIFY_ARGS: seq<string> := ["gpg", "--verify"]

  function ImportArgs(pubkey: string): seq<string> {
    ["gpg", "--import", pubkey]
  }

  function VerifyArgs(cli: GpgCli, tarfile: string, signature: string): seq<string> {
    cli.args + [signature, tarfile]
  }

  /** The status `GPGCli.verify` returns once gpg has answered: None exactly
      for exit code 0, otherwise a `GPGCliStatus` whose `strerror` is gpg's
      standard error. A status is represented by its `strerror`. */
  function CliStatus(run: ToolRun): (s: Option<string>)
    ensures s.None? <==> run.code == 0
    ensures s.Some? ==> s.value == run.err
  {
    if run.code == 0 then None else Some(run.err)
  }

  /** `GPGCli(pubkey, home)`. With a key, the keyring directory (`home`, or a
      new temporary one) is exported as `GNUPGHOME` and the key is imported
      with `gpg --import`; a non-zero exit raises with gpg's standard error.
      `made` is the directory created here, if any. */
  method NewGpgCli(host: Host, world: World, pubkey: Option<string>, home: Option<string>)
    returns (r: Outcome<GpgCli>, ghost made: Option<string>)
    requires host.Valid()
    modifies host`dirs, host`environ, host`calls
    ensures host.Valid()
    ensures r.Return? ==> r.value == GpgCli(VERIFY_ARGS)
    ensures pubkey.None? ==>
      && r == Return(GpgCli(VERIFY_ARGS)) && made == None
      && host.dirs == old(host.dirs) && host.environ == old(host.environ) && host.calls == old(host.calls)
    ensures home.Some? ==> made == None
    ensures pubkey.Some? && home.None? ==>
      && made.Some? && StartsWith(made.value, TEMP_PREFIX)
      && (forall p :: p in old(host.files) || p in old(host.dirs) ==> !Under(p, made.value))
      && host.dirs == old(host.dirs) + {made.value}
    ensures pubkey.Some? ==>
      var keyring := if home.Some? then home.value else made.value;
      var run := world.gpg(ImportArgs(pubkey.value), host.files, old(host.environ)[GNUPGHOME := keyring]);
      && (home.Some? ==> host.dirs == old(host.dirs))
      && host.environ == old(host.environ)[GNUPGHOME := keyring]
      && host.calls == old(host.calls) + [Run(ImportArgs(pubkey.value), run)]
      && (r.Throw? <==> run.code != 0)
      && (r.Throw? ==> r.exc == Raised(run.err))
  {
    made := None;
    if pubkey.Some? {
      var keyring: string;
      if home.None? {
        keyring := Mkdtemp(host);
        made := Some(keyring);
      } else {
        keyring := home.value;
      }
      host.environ := host.environ[GNUPGHOME := keyring];
      var run := world.gpg(ImportArgs(pubkey.value), host.files, host.environ);
      host.Record(Run(ImportArgs(pubkey.value), run));
      if run.code != 0 {
        return Throw(Raised(run.err)), made;
      }
    }
    r := Return(GpgCli(VERIFY_ARGS));
  }

  /** `GPGCli.verify(_, tarfile, signature)`: runs `gpg --verify <signature>
      <tarfile>` and maps its exit code to a status. */
  method CliVerify(host: Host, world: World, cli: GpgCli, tarfile: string, signature: string)
    returns (s: Option<string>)
    modifies host`calls
    ensures var run := world.gpg(VerifyArgs(cli, tarfile, signature), host.files, host.environ);
      host.calls == old(host.calls) + [Run(VerifyArgs(cli, tarfile, signature), run)] && s == CliStatus(run)
  {
    var args := VerifyArgs(cli, tarfile, signature);
    var run := world.gpg(args, host.files, host.environ);
    host.Record(Run(args, run));
    s := CliStatus(run);
  }

  /** What `verify_cli` gives with a key once `GNUPGHOME` is set in `env`:
      an import that gpg refuses raises with gpg's standard error; otherwise
      the status of `gpg --verify`. */
  function CliOutcome(world: World, files: map<string, Bytes>, env: map<string, string>,
                      pubkey: string, tarball: string, signature: string): (r: Outcome<Option<string>>)
    ensures r.Throw? <==> world.gpg(ImportArgs(pubkey), files, env).code != 0
    ensures r.Throw? ==> r.exc.Raised?
  {
    var imp := world.gpg(ImportArgs(pubkey), files, env);
    if imp.code != 0 then Throw(Raised(imp.err))
    else Return(CliStatus(world.gpg(VerifyArgs(GpgCli(VERIFY_ARGS), tarball, signature), files, env)))
  }

  /** What `verify_gpgme` gives with a key once `GNUPGHOME` is set in `env`:
      `open` raises `OSError` for a missing signature, tarball or key file; a
      key that does not import, or a verification with no signatures, raises
      `IndexError`; otherwise the status of the first signature. */
  function GpgmeOutcome(world: World, files: map<string, Bytes>, env: map<string, string>,
                        pubkey: string, tarball: string, signature: string): (r: Outcome<Option<string>>)
    ensures r.Throw? ==> r.exc == OSError || r.exc == IndexError
    ensures r.Return? ==> signature in files && tarball in files && pubkey in files
  {
    if signature !in files || tarball !in files || pubkey !in files then Throw(OSError)
    else if !world.gpgmeImport(files[pubkey], env) then Throw(IndexError)
    else
      var statuses := world.gpgmeVerify(files[signature], files[tarball], env);
      if |statuses| == 0 then Throw(IndexError) else Return(statuses[0])
  }

  /** `verify_cli(pubkey, tarball, signature, gpghome)`, with `cli_gpg_ctx`
      inlined. Without a key gpg verifies against the ambient keyring and
      nothing changes. With a key and no `gpghome`, a temporary keyring is
      made, used, and released on every exit (also when the import raises):
      `GNUPGHOME` is deleted and the directory removed. A caller's `gpghome`
      is never removed, and stays exported. `keyring` is the `GNUPGHOME` the
      calls ran under. */
  method VerifyCli(host: Host, world: World, pubkey: Option<string>, tarball: string, signature: string,
                   gpghome: Option<string>)
    returns (r: Outcome<Option<string>>, ghost keyring: string)
    requires host.Valid()
    modifies host`dirs, host`files, host`environ, host`calls
    ensures host.Valid()
    ensures host.files == old(host.files)
    ensures host.dirs == old(host.dirs)
    ensures r.Throw? ==> pubkey.Some? && r.exc.Raised?
    ensures pubkey.None? ==>
      var run := world.gpg(VerifyArgs(GpgCli(VERIFY_ARGS), tarball, signature), host.files, host.environ);
      && host.environ == old(host.environ)
      && host.calls == old(host.calls) + [Run(VerifyArgs(GpgCli(VERIFY_ARGS), tarball, signature), run)]
      && r == Return(CliStatus(run))
    ensures pubkey.Some? && gpghome.None? ==>
      && host.environ == old(host.environ) - {GNUPGHOME}
      && StartsWith(keyring, TEMP_PREFIX)
      && keyring !in old(host.dirs) && keyring !in old(host.files)
    ensures pubkey.Some? && gpghome.Some? ==>
      keyring == gpghome.value && host.environ == old(host.environ)[GNUPGHOME := keyring]
    ensures pubkey.Some? ==>
      var env := old(host.environ)[GNUPGHOME := keyring];
      var imp := world.gpg(ImportArgs(pubkey.value), old(host.files), env);
      var ver := world.gpg(VerifyArgs(GpgCli(VERIFY_ARGS), tarball, signature), old(host.files), env);
      && (imp.code != 0 ==>
            r == Throw(Raised(imp.err)) && host.calls == old(host.calls) + [Run(ImportArgs(pubkey.value), imp)])
      && (imp.code == 0 ==>
            && r == Return(CliStatus(ver))
            && host.calls == old(host.calls) + [Run(ImportArgs(pubkey.value), imp),
                                                Run(VerifyArgs(GpgCli(VERIFY_ARGS), tarball, signature), ver)])
  {
    keyring := "";
    if pubkey.None? {
      var cli, _ := NewGpgCli(host, world, None, None);
      var s := CliVerify(host, world, cli.value, tarball, signature);
      return Return(s), keyring;
    }
    var home: string;
    if gpghome.None? {
      home := Mkdtemp(host);
    } else {
      home := gpghome.value;
    }
    keyring := home;
    var cli, _ := NewGpgCli(host, world, pubkey, Some(home));
    if cli.Return? {
      var s := CliVerify(host, world, cli.value, tarball, signature);
      r := Return(s);
    } else {
      r := Throw(cli.exc);
    }
    // finally
    if gpghome.None? {
      host.environ := host.environ - {GNUPGHOME};
      RemoveUpdated(old(host.environ), GNUPGHOME, home);
      PruneFresh(old(host.dirs), old(host.files), home);
      Rmtree(host, home);
    }
  }

  /** `verify_gpgme(pubkey, tarball, signature, gpghome)`, with `gpg_ctx`
      inlined. The signature and the tarball are read first (a missing one
      raises `OSError`). With a key, a temporary keyring is ALWAYS made and
      exported, whatever `gpghome` says; it is released on every exit only
      when `gpghome` is None, and otherwise left behind, still exported.
      The result is the status of the first signature gpgme reports (None
      when it is good); no key imported, or no signature reported, raises
      `IndexError`. `keyring` is the temporary keyring, if one was made. */
  method VerifyGpgme(host: Host, world: World, pubkey: Option<string>, tarball: string, signature: string,
                     gpghome: Option<string>)
    returns (r: Outcome<Option<string>>, ghost keyring: Option<string>)
    requires host.Valid()
    modifies host`dirs, host`files, host`environ, host`calls
    ensures host.Valid()
    ensures host.files == old(host.files)
    ensures signature !in old(host.files) || tarball !in old(host.files) ==>
      r == Throw(OSError) && keyring == None && host.calls == old(host.calls)
      && host.dirs == old(host.dirs) && host.environ == old(host.environ)
    ensures r.Return? ==> signature in old(host.files) && tarball in old(host.files)
    ensures pubkey.None? && signature in old(host.files) && tarball in old(host.files) ==>
      var statuses := world.gpgmeVerify(old(host.files)[signature], old(host.files)[tarball], old(host.environ));
      && keyring == None && host.dirs == old(host.dirs) && host.environ == old(host.environ)
      && host.calls == old(host.calls) + [GpgmeVerify(signature, tarball, statuses)]
      && r == (if |statuses| == 0 then Throw(IndexError) else Return(statuses[0]))
    ensures pubkey.Some? && signature in old(host.files) && tarball in old(host.files) ==>
      && keyring.Some? && StartsWith(keyring.value, TEMP_PREFIX)
      && keyring.value !in old(host.dirs) && keyring.value !in old(host.files)
      && (gpghome.None? ==> host.dirs == old(host.dirs) && host.environ == old(host.environ) - {GNUPGHOME})
      && (gpghome.Some? ==> host.dirs == old(host.dirs) + {keyring.value}
                            && host.environ == old(host.environ)[GNUPGHOME := keyring.value])
    ensures pubkey.Some? && signature in old(host.files) && tarball in old(host.files) ==>
      var env := old(host.environ)[GNUPGHOME := keyring.value];
      var statuses := world.gpgmeVerify(old(host.files)[signature], old(host.files)[tarball], env);
      && (pubkey.value !in old(host.files) ==> r == Throw(OSError) && host.calls == old(host.calls))
      && (pubkey.value in old(host.files) ==>
            var imported := world.gpgmeImport(old(host.files)[pubkey.value], env);
            && (!imported ==>
                  r == Throw(IndexError) && host.calls == old(host.calls) + [GpgmeImport(pubkey.value, false)])
            && (imported ==>
                  && r == (if |statuses| == 0 then Throw(IndexError) else Return(statuses[0]))
                  && host.calls == old(host.calls) + [GpgmeImport(pubkey.value, true)]
                                                    + [GpgmeVerify(signature, tarball, statuses)]))
  {
    keyring := None;
    if signature !in host.files || tarball !in host.files {
      return Throw(OSError), keyring;
    }
    var sig := host.files[signature];
    var tar := host.files[tarball];
    if pubkey.None? {
      var statuses := world.gpgmeVerify(sig, tar, host.environ);
      host.Record(GpgmeVerify(signature, tarball, statuses));
      if |statuses| == 0 {
        return Throw(IndexError), keyring;
      }
      return Return(statuses[0]), keyring;
    }
    var home := Mkdtemp(host);
    keyring := Some(home);
    host.environ := host.environ[GNUPGHOME := home];
    if pubkey.value !in host.files {
      r := Throw(OSError);
    } else {
      var imported := world.gpgmeImport(host.files[pubkey.value], host.environ);
      host.Record(GpgmeImport(pubkey.value, imported));
      if !imported {
        r := Throw(IndexError);
      } else {
        var statuses := world.gpgmeVerify(sig, tar, host.environ);
        host.Record(GpgmeVerify(signature, tarball, statuses));
        r := if |statuses| == 0 then Throw(IndexError) else Return(statuses[0]);
      }
    }
    // finally
    if gpghome.None? {
      host.environ := host.environ - {GNUPGHOME};
      RemoveUpdated(old(host.environ), GNUPGHOME, home);
      PruneFresh(old(host.dirs), old(host.files), home);
      Rmtree(host, home);
    }
  }
}
