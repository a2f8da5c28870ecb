/** Choosing a verifier by file extension, and the two entry points: a
    package named by its URL in a download directory, and a package on disk. */
module Dispatch {
  import opened Base
  import opened Text
  import opened Paths
  import opened Machine
  import opened Reporting
  import opened Download
  import opened KeyId
  import opened Keyring
  import opened Gpg
  import opened Gem

  /** The two verifier classes. */
  datatype VerifierKind = GpgKind | GemKind

  /** `VERIFIER_TYPES`: the extensions that have a verifier. */
  const VerifierTypes: map<string, VerifierKind> := map[".gz" := GpgKind, ".gem" := GemKind]

  /** `get_file_ext(filename)`: the extension `splitext` finds, dot included,
      or "" when there is none. */
  function GetFileExt(filename: string): (ext: string)
    ensures ext == Splitext(filename).1
    ensures EndsWith(filename, ext)
    ensures ext == [] || ext[0] == '.'
  {
    var (root, ext) := Splitext(filename);
    assert filename[|filename| - |ext|..] == ext;
    ext
  }

  /** `get_verifier(filename)`: an exact, case-sensitive lookup of the
      extension. */
  function GetVerifier(filename: string): (kind: Option<VerifierKind>)
    ensures kind == Some(GpgKind) <==> GetFileExt(filename) == ".gz"
    ensures kind == Some(GemKind) <==> GetFileExt(filename) == ".gem"
  {
    var ext := GetFileExt(filename);
    if ext in VerifierTypes then Some(VerifierTypes[ext]) else None
  }

  /** In terms of the name: a `.gz` file gets the GPG verifier and a `.gem`
      file the checksum verifier, provided the final component has a
      character other than '.' before the extension; every other name
      (`.tgz`, `.xz`, `..gz`, no extension at all) gets none. */
  lemma VerifierByName(filename: string)
    ensures GetVerifier(filename) == Some(GpgKind) <==> EndsWith(filename, ".gz") && HasStem(filename, 3)
    ensures GetVerifier(filename) == Some(GemKind) <==> EndsWith(filename, ".gem") && HasStem(filename, 4)
  {
    ExtensionIs(filename, ".gz");
    ExtensionIs(filename, ".gem");
  }

  /** Upper-case extensions are not recognised. */
  lemma UpperCaseIsNotVerifiable(filename: string)
    requires EndsWith(filename, ".GZ") || EndsWith(filename, ".GEM")
    ensures GetVerifier(filename) == None
  {
    var n := |filename|;
    assert filename[n - 1] == 'Z' || filename[n - 1] == 'M';
    VerifierByName(filename);
  }

  /** A name without '/' is its own final component. */
  lemma NoSlashIsBase(p: string)
    requires '/' !in p
    ensures BaseStart(p) == 0
  {
  }

  /** A `.tar.gz` tarball whose name has a stem gets the GPG verifier. */
  lemma TarballIsGpg(stem: string, ext: string)
    requires ext == ".tar.gz"
    requires '/' !in stem && exists i :: 0 <= i < |stem| && stem[i] != '.'
    ensures GetVerifier(stem + ext) == Some(GpgKind)
  {
    var f := stem + ext;
    var i :| 0 <= i < |stem| && stem[i] != '.';
    assert f[|f| - 3..] == ".gz";
    assert f[i] == stem[i];
    assert '/' !in f;
    NoSlashIsBase(f);
    VerifierByName(f);
  }

  /** How a GPG verification of the package at `path` ends, for a host that
      held `files`, `dirs` and `environ` and had made the calls `calls0`, and
      that afterwards holds `files1`, `dirs1` and `environ1` and has made the
      calls `calls`: a missing package fails at once and changes nothing;
      otherwise the signature `path + '.asc'` is fetched, when missing, from
      `keyUrl` as the first call, the key steps end as `AfterSignature` says,
      and the host is left as `HostAfter` says. The directories are always
      those there were. True means a good signature. */
  ghost predicate GpgRun(world: World, files: map<string, Bytes>, dirs: set<string>, environ: map<string, string>,
                         calls0: seq<Call>, calls: seq<Call>, keyUrl: Option<string>, path: string,
                         r: Outcome<bool>, stage: Stage,
                         files1: map<string, Bytes>, dirs1: set<string>, environ1: map<string, string>) {
    && calls0 <= calls
    && dirs1 == dirs
    && (path !in files && path !in dirs ==> files1 == files && environ1 == environ)
    && (path in files || path in dirs ==>
          HostAfter(world, files, dirs, environ, path + ASC, world.net(keyUrl), path, stage, files1, dirs1, environ1))
    && (r == Return(true) <==> stage.Engine? && stage.status == Return(None))
    && (!stage.Engine? ==> NoEngine(calls[|calls0|..]))
    && (path !in files && path !in dirs ==> stage.NoPackage? && r == Return(false))
    && (path in files || path in dirs ==>
          AfterSignature(world, files, dirs, environ, path + ASC, world.net(keyUrl), path, stage))
    && ((path in files || path in dirs) && path + ASC !in files && path + ASC !in dirs ==>
          && |calls| > |calls0|
          && calls[|calls0|] == Fetch(keyUrl, path + ASC, world.net(keyUrl)))
    && (stage.NoKey? ==> r == Return(false))
    && (stage.Aborted? ==> r == Throw(stage.exc))
  }

  /** A GPG verification succeeds only through a key file: when no key id
      has one, even after the signature step, the result is never True and
      no engine runs. */
  lemma MissingKeyNeverPasses(world: World, files: map<string, Bytes>, dirs: set<string>, environ: map<string, string>,
                              calls0: seq<Call>, calls: seq<Call>, keyUrl: Option<string>, path: string,
                              r: Outcome<bool>, stage: Stage,
                              files1: map<string, Bytes>, dirs1: set<string>, environ1: map<string, string>)
    requires GpgRun(world, files, dirs, environ, calls0, calls, keyUrl, path, r, stage, files1, dirs1, environ1)
    requires forall k :: var key := PubkeyPath(world.scriptDir, k);
      key !in SignedFiles(files, dirs, path + ASC, world.net(keyUrl)) && key !in dirs
    ensures r != Return(true)
    ensures NoEngine(calls[|calls0|..])
  {
    if (path in files || path in dirs) && SignatureReady(files, dirs, path + ASC, world.net(keyUrl)) {
      MissingKeyRejected(world, SignedFiles(files, dirs, path + ASC, world.net(keyUrl)), dirs, environ,
                         path + ASC, path, stage);
    }
  }

  /** With the `gpg` program, the package and its signature usable, a key id
      that parses, its key file present and gpg exiting with 0 for every
      call, a GPG verification gives True. */
  lemma GoodSignaturePasses(world: World, files: map<string, Bytes>, dirs: set<string>, environ: map<string, string>,
                            calls0: seq<Call>, calls: seq<Call>, keyUrl: Option<string>, path: string,
                            r: Outcome<bool>, stage: Stage,
                            files1: map<string, Bytes>, dirs1: set<string>, environ1: map<string, string>)
    requires GpgRun(world, files, dirs, environ, calls0, calls, keyUrl, path, r, stage, files1, dirs1, environ1)
    requires world.popenBound && world.gpgCli
    requires path in files || path in dirs
    requires SignatureReady(files, dirs, path + ASC, world.net(keyUrl))
    requires var signed := SignedFiles(files, dirs, path + ASC, world.net(keyUrl));
      && KeyidOf(world.gpg(ListPacketArgs(path + ASC), signed, environ)).Return?
      && var key := PubkeyPath(world.scriptDir, KeyidOf(world.gpg(ListPacketArgs(path + ASC), signed, environ)).value);
         key in signed || key in dirs
    requires forall args, f, e :: world.gpg(args, f, e).code == 0
    ensures r == Return(true)
  {
    GoodCliSignature(world, SignedFiles(files, dirs, path + ASC, world.net(keyUrl)), dirs, environ,
                     path + ASC, path, stage);
  }

  /** A GPG verification leaves no temporary keyring behind: the directories
      are those there were, and a `GNUPGHOME` the environment did not hold
      before it does not hold afterwards. */
  lemma KeyringReleased(world: World, files: map<string, Bytes>, dirs: set<string>, environ: map<string, string>,
                        calls0: seq<Call>, calls: seq<Call>, keyUrl: Option<string>, path: string,
                        r: Outcome<bool>, stage: Stage,
                        files1: map<string, Bytes>, dirs1: set<string>, environ1: map<string, string>)
    requires GpgRun(world, files, dirs, environ, calls0, calls, keyUrl, path, r, stage, files1, dirs1, environ1)
    requires GNUPGHOME !in environ
    ensures dirs1 == dirs && environ1 == environ
  {
    if path in files || path in dirs {
      KeyEnvironUnset(world, SignedFiles(files, dirs, path + ASC, world.net(keyUrl)), environ, path + ASC, path, stage);
    }
  }

  /** Once the `gpg` program has run, `GNUPGHOME` is gone from the
      environment, even when the caller had set it before the verification. */
  lemma GnupghomeDropped(world: World, files: map<string, Bytes>, dirs: set<string>, environ: map<string, string>,
                         calls0: seq<Call>, calls: seq<Call>, keyUrl: Option<string>, path: string,
                         r: Outcome<bool>, stage: Stage,
                         files1: map<string, Bytes>, dirs1: set<string>, environ1: map<string, string>)
    requires GpgRun(world, files, dirs, environ, calls0, calls, keyUrl, path, r, stage, files1, dirs1, environ1)
    requires world.gpgCli && stage.Engine?
    ensures environ1 == environ - {GNUPGHOME}
  {
    assert path in files || path in dirs;
  }

  /** A signature download cut short by a transport error fails the
      verification, and the bytes that arrived stay on disk under the
      signature's name. */
  lemma PartialSignatureKept(world: World, files: map<string, Bytes>, dirs: set<string>, environ: map<string, string>,
                             calls0: seq<Call>, calls: seq<Call>, keyUrl: Option<string>, path: string,
                             r: Outcome<bool>, stage: Stage,
                             files1: map<string, Bytes>, dirs1: set<string>, environ1: map<string, string>)
    requires GpgRun(world, files, dirs, environ, calls0, calls, keyUrl, path, r, stage, files1, dirs1, environ1)
    requires path in files || path in dirs
    requires path + ASC !in files && path + ASC !in dirs
    requires world.net(keyUrl).TransportError?
    ensures r != Return(true)
    ensures path + ASC in files1 && files1[path + ASC] == world.net(keyUrl).partial
  {
  }

  /** The signature URL a verifier built from `url` alone derives. */
  function SignUrl(url: Option<string>): (k: Option<string>)
    ensures k.Some? <==> url.Some?
    ensures url.Some? ==> k.value == url.value + ASC
  {
    if url.Some? then Some(url.value + ASC) else None
  }

  /** A GPG verifier built with `package_path=path` and `url`, and run. */
  method RunGpg(host: Host, world: World, url: Option<string>, path: string)
    returns (r: Outcome<bool>, ghost stage: Stage)
    requires host.Valid()
    modifies host`files, host`dirs, host`environ, host`calls, host`reports
    ensures host.Valid()
    ensures GpgRun(world, old(host.files), old(host.dirs), old(host.environ), old(host.calls), host.calls,
                   SignUrl(url), path, r, stage, host.files, host.dirs, host.environ)
  {
    var v := new GpgVerifier(url, None, Some(path), None);
    r, stage := v.Verify(host, world);
  }

  /** Runs the verifier of kind `kind` on the package at `path`, built with
      `package_path=path` and, when given, `url`; no signature path is
      passed, so a GPG verifier reads `path + '.asc'` and fetches it, when it
      is missing, from the URL plus `.asc` (or from no URL). The stage is
      that of a GPG verification; a gem verification has none. */
  method RunVerifier(host: Host, world: World, kind: VerifierKind, url: Option<string>, path: string)
    returns (r: Outcome<bool>, ghost stage: Stage)
    requires host.Valid()
    modifies host`files, host`dirs, host`environ, host`calls, host`reports
    ensures host.Valid()
    ensures kind == GpgKind ==>
      GpgRun(world, old(host.files), old(host.dirs), old(host.environ), old(host.calls), host.calls,
             SignUrl(url), path, r, stage, host.files, host.dirs, host.environ)
    ensures kind == GemKind ==>
      && host.files == old(host.files) && host.dirs == old(host.dirs) && host.environ == old(host.environ)
      && (r == Return(true) <==> Published(world, old(host.files), path))
  {
    stage := NoPackage;
    if kind == GpgKind {
      r, stage := RunGpg(host, world, url, path);
    } else {
      var v := new GemShaVerifier.WithPackagePath(url, path, None);
      r := v.Verify(host, world);
    }
  }

  /** The message printed for a URL whose file has no verifier. */
  function NotVerifiableYet(name: string): (rep: Report)
    ensures rep.Error?
    ensures StartsWith(rep.text, "File " + name) && EndsWith(rep.text, name + " is not verifiable (yet)")
  {
    Affixes("File " + name, " is not verifiable (yet)");
    Affixes("File ", name + " is not verifiable (yet)");
    Error("File " + name + " is not verifiable (yet)")
  }

  /** `from_url(url, download_path)`: the package is the URL's last component
      inside `download_path`; its extension chooses the verifier, which is
      given the package path and the URL. A GPG verifier therefore fetches
      the signature, when it is missing, from `url + '.asc'` into
      `package_path + '.asc'`. A name with no verifier prints an error and
      gives a false result without touching anything else. */
  method FromUrl(host: Host, world: World, url: string, downloadPath: string)
    returns (r: Outcome<bool>, kind: Option<VerifierKind>, name: string, path: string, ghost stage: Stage)
    requires host.Valid()
    modifies host`files, host`dirs, host`environ, host`calls, host`reports
    ensures host.Valid()
    ensures name == Basename(url) && path == Join(downloadPath, name) && Basename(path) == name
    ensures kind == GetVerifier(name)
    ensures kind.None? ==>
      && r == Return(false)
      && host.files == old(host.files) && host.dirs == old(host.dirs) && host.environ == old(host.environ)
      && host.calls == old(host.calls)
      && host.reports == old(host.reports) + [NotVerifiableYet(name)]
    ensures kind == Some(GpgKind) ==>
      GpgRun(world, old(host.files), old(host.dirs), old(host.environ), old(host.calls), host.calls,
             Some(url + ASC), path, r, stage, host.files, host.dirs, host.environ)
    ensures kind == Some(GemKind) ==>
      && host.files == old(host.files) && host.dirs == old(host.dirs) && host.environ == old(host.environ)
      && (r == Return(true) <==> Published(world, old(host.files), path))
  {
    name := Basename(url);
    path := Join(downloadPath, name);
    JoinBasename(downloadPath, name);
    r, kind, stage := VerifyLocated(host, world, url, name, path);
  }

  /** The body of `from_url` once the file name and package path are known. */
  method VerifyLocated(host: Host, world: World, url: string, name: string, path: string)
    returns (r: Outcome<bool>, kind: Option<VerifierKind>, ghost stage: Stage)
    requires host.Valid()
    modifies host`files, host`dirs, host`environ, host`calls, host`reports
    ensures host.Valid()
    ensures kind == GetVerifier(name)
    ensures kind.None? ==>
      && r == Return(false)
      && host.files == old(host.files) && host.dirs == old(host.dirs) && host.environ == old(host.environ)
      && host.calls == old(host.calls)
      && host.reports == old(host.reports) + [NotVerifiableYet(name)]
    ensures kind == Some(GpgKind) ==>
      GpgRun(world, old(host.files), old(host.dirs), old(host.environ), old(host.calls), host.calls,
             Some(url + ASC), path, r, stage, host.files, host.dirs, host.environ)
    ensures kind == Some(GemKind) ==>
      && host.files == old(host.files) && host.dirs == old(host.dirs) && host.environ == old(host.environ)
      && (r == Return(true) <==> Published(world, old(host.files), path))
  {
    kind := GetVerifier(name);
    stage := NoPackage;
    if kind.None? {
      host.Say(NotVerifiableYet(name));
      return Return(false), kind, stage;
    }
    r, stage := RunVerifier(host, world, kind.value, Some(url), path);
  }

  /** The message printed for a file on disk that has no verifier. */
  function NotVerifiable(path: string): (rep: Report)
    ensures rep.Plain?
    ensures StartsWith(rep.text, "File " + path) && EndsWith(rep.text, path + " is not verifiable")
  {
    Affixes("File " + path, " is not verifiable");
    Affixes("File ", path + " is not verifiable");
    Plain("File " + path + " is not verifiable")
  }

  /** `from_disk(package_path, package_check)`: the verifier gets the package
      path only. `package_check` is accepted and ignored, so the signature a
      GPG verifier reads is always `package_path + '.asc'`, and with no URL
      a missing signature is fetched from no URL at all. */
  method FromDisk(host: Host, world: World, packagePath: string, packageCheck: Option<string>)
    returns (r: Outcome<bool>, kind: Option<VerifierKind>, ghost stage: Stage)
    requires host.Valid()
    modifies host`files, host`dirs, host`environ, host`calls, host`reports
    ensures host.Valid()
    ensures kind == GetVerifier(packagePath)
    ensures kind.None? ==>
      && r == Return(false)
      && host.files == old(host.files) && host.dirs == old(host.dirs) && host.environ == old(host.environ)
      && host.calls == old(host.calls)
      && host.reports == old(host.reports) + [NotVerifiable(packagePath)]
    ensures kind == Some(GpgKind) ==>
      GpgRun(world, old(host.files), old(host.dirs), old(host.environ), old(host.calls), host.calls,
             None, packagePath, r, stage, host.files, host.dirs, host.environ)
    ensures kind == Some(GemKind) ==>
      && host.files == old(host.files) && host.dirs == old(host.dirs) && host.environ == old(host.environ)
      && (r == Return(true) <==> Published(world, old(host.files), packagePath))
  {
    kind := GetVerifier(packagePath);
    stage := NoPackage;
    if kind.None? {
      host.Say(NotVerifiable(packagePath));
      return Return(false), kind, stage;
    }
    r, stage := RunVerifier(host, world, kind.value, None, packagePath);
  }
}
