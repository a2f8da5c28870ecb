/** `GPGVerifier`: checks a package against its detached `.asc` signature.
    `verify` is a chain of checks against the host, each of which can end
    the verification early: the package must exist, the signature must exist
    or be downloaded, the key file named by the signature's key id must be in
    the keyring directory, and only then is the signature engine asked. */
module Gpg {
  import opened Base
  import opened Text
  import opened Machine
  import opened Reporting
  import opened Download
  import opened KeyId
  import opened Keyring

  const ASC: string := ".asc"

  /** A call made by a signature engine (importing a key or verifying). */
  predicate EngineCall(c: Call) {
    || c.GpgmeImport? || c.GpgmeVerify?
    || (c.Run? && |c.args| >= 2 && (c.args[1] == "--import" || c.args[1] == "--verify"))
  }

  /** No call in `cs` downloads anything. */
  predicate NoFetch(cs: seq<Call>) {
    forall i :: 0 <= i < |cs| ==> !cs[i].Fetch?
  }

  /** No call in `cs` is made by a signature engine. */
  predicate NoEngine(cs: seq<Call>) {
    forall i :: 0 <= i < |cs| ==> !EngineCall(cs[i])
  }

  /** Every call in `cs` is made by a signature engine. */
  predicate OnlyEngine(cs: seq<Call>) {
    forall i :: 0 <= i < |cs| ==> EngineCall(cs[i])
  }

  /** The key-id listing `verify` runs is neither a download nor an engine call. */
  lemma ListingIsPlain(world: World, files: map<string, Bytes>, environ: map<string, string>, signature: string)
    ensures NoFetch(ListingCalls(world, files, environ, signature))
    ensures NoEngine(ListingCalls(world, files, environ, signature))
  {
    var args := ListPacketArgs(signature);
    assert |args[1]| == 13;
  }

  /** The calls made between two points of a growing trace are those made
      up to a middle point followed by those made after it. */
  lemma TraceSplit(c0: seq<Call>, c1: seq<Call>, c2: seq<Call>)
    requires c0 <= c1 <= c2
    ensures c2[|c0|..] == c1[|c0|..] + c2[|c1|..]
  {
  }

  /** `c2` extends `c1` by the listing `ls` followed by engine calls only. */
  predicate ThenEngine(c1: seq<Call>, c2: seq<Call>, ls: seq<Call>) {
    |c2| >= |c1| + |ls| && c2[..|c1| + |ls|] == c1 + ls && OnlyEngine(c2[|c1| + |ls|..])
  }

  lemma ThenEngineIntro(c0: seq<Call>, c1: seq<Call>, c2: seq<Call>, ls: seq<Call>)
    requires c1 == c0 + ls && c1 <= c2 && OnlyEngine(c2[|c1|..])
    ensures ThenEngine(c0, c2, ls)
  {
    assert c2[..|c0| + |ls|] == c1;
  }

  /** Two traces without downloads make one. */
  lemma NoFetchJoin(s: seq<Call>, k: seq<Call>)
    requires NoFetch(s) && NoFetch(k)
    ensures NoFetch(s + k)
  {
    forall i | 0 <= i < |s + k| ensures !(s + k)[i].Fetch? {
      if i >= |s| {
        assert (s + k)[i] == k[i - |s|];
      }
    }
  }

  /** Two traces without engine calls make one. */
  lemma NoEngineJoin(s: seq<Call>, k: seq<Call>)
    requires NoEngine(s) && NoEngine(k)
    ensures NoEngine(s + k)
  {
    forall i | 0 <= i < |s + k| ensures !EngineCall((s + k)[i]) {
      if i >= |s| {
        assert (s + k)[i] == k[i - |s|];
      }
    }
  }

  /** The trace of the key steps: listings only, or the listing followed by
      engine calls. Neither downloads; only the latter uses the engine. */
  lemma KeyTrace(c1: seq<Call>, c2: seq<Call>, ls: seq<Call>, engine: bool)
    requires NoFetch(ls) && NoEngine(ls)
    requires !engine ==> c2 == c1 + ls || c2 == c1 + ls + ls
    requires engine ==> ThenEngine(c1, c2, ls)
    ensures c1 <= c2
    ensures NoFetch(c2[|c1|..])
    ensures !engine ==> NoEngine(c2[|c1|..])
  {
    var k := c2[|c1|..];
    if engine {
      var e := c2[|c1| + |ls|..];
      assert c2[..|c1|] == (c1 + ls)[..|c1|] == c1;
      assert k == ls + e;
      assert NoFetch(e) by {
        forall i | 0 <= i < |e| ensures !e[i].Fetch? {
          assert EngineCall(e[i]);
        }
      }
      NoFetchJoin(ls, e);
    } else if c2 == c1 + ls {
      assert k == ls;
    } else {
      assert k == ls + ls;
      NoFetchJoin(ls, ls);
      NoEngineJoin(ls, ls);
    }
  }

  /** The signature step calls nothing or downloads once; the key steps
      add their calls after it. */
  lemma WholeTrace(c0: seq<Call>, c1: seq<Call>, c2: seq<Call>, f: Call, engine: bool)
    requires f.Fetch?
    requires c1 == c0 || c1 == c0 + [f]
    requires c1 <= c2
    requires NoFetch(c2[|c1|..]) && (!engine ==> NoEngine(c2[|c1|..]))
    ensures c0 <= c2
    ensures c1 == c0 ==> NoFetch(c2[|c0|..])
    ensures !engine ==> NoEngine(c2[|c0|..])
  {
    TraceSplit(c0, c1, c2);
    if !engine {
      assert c1[|c0|..] == [] || c1[|c0|..] == [f];
      NoEngineJoin(c1[|c0|..], c2[|c1|..]);
    }
  }

  /** A keyring directory `mkdtemp` may pick: the temporary prefix, and
      nothing on disk under that name. */
  predicate FreshKeyring(keyring: string, files: map<string, Bytes>, dirs: set<string>) {
    StartsWith(keyring, TEMP_PREFIX) && keyring !in files && keyring !in dirs
  }

  /** The status the engine of `world` gives for `tarball` and `signature`
      with the key file `pubkey` imported into the keyring `keyring`: the
      `gpg` program when the gpgme binding is missing, the binding otherwise,
      both running with `GNUPGHOME` set to the keyring. */
  function EngineOutcome(world: World, files: map<string, Bytes>, environ: map<string, string>, keyring: string,
                         pubkey: string, tarball: string, signature: string): Outcome<Option<string>> {
    var env := environ[GNUPGHOME := keyring];
    if world.gpgCli then CliOutcome(world, files, env, pubkey, tarball, signature)
    else GpgmeOutcome(world, files, env, pubkey, tarball, signature)
  }

  /** The environment once the engine is done: `GNUPGHOME` is deleted again
      whenever a keyring was exported, which the `gpg` program always does
      and the gpgme binding does once it has read the signature and the
      tarball. */
  function EngineEnviron(world: World, files: map<string, Bytes>, environ: map<string, string>,
                         tarball: string, signature: string): map<string, string> {
    if world.gpgCli || (signature in files && tarball in files) then environ - {GNUPGHOME} else environ
  }

  /** The engine `verify` uses, with a temporary keyring into which `pubkey`
      is imported and which is released afterwards. `keyring` is the name of
      that directory (for a signature or tarball the binding cannot open, the
      name it would have had). */
  method SignEngine(host: Host, world: World, pubkey: string, tarball: string, signature: string)
    returns (r: Outcome<Option<string>>, ghost keyring: string)
    requires host.Valid()
    modifies host`files, host`dirs, host`environ, host`calls
    ensures host.Valid()
    ensures host.files == old(host.files) && host.dirs == old(host.dirs)
    ensures old(host.calls) <= host.calls
    ensures OnlyEngine(host.calls[|old(host.calls)|..])
    ensures host.environ == EngineEnviron(world, old(host.files), old(host.environ), tarball, signature)
    ensures FreshKeyring(keyring, old(host.files), old(host.dirs))
    ensures r == EngineOutcome(world, old(host.files), old(host.environ), keyring, pubkey, tarball, signature)
  {
    if world.gpgCli {
      r, keyring := VerifyCli(host, world, Some(pubkey), tarball, signature, None);
    } else {
      ghost var made;
      r, made := VerifyGpgme(host, world, Some(pubkey), tarball, signature, None);
      if made.Some? {
        keyring := made.value;
      } else {
        ghost var taken := old(host.files).Keys + old(host.dirs);
        FreshNameExists(taken);
        keyring :| StartsWith(keyring, TEMP_PREFIX) && forall p :: p in taken ==> !Under(p, keyring);
        assert Under(keyring, keyring);
      }
    }
  }

  /** How far `verify` got: which check ended it, or what the engine said.
      `Aborted` is an exception raised before the engine was reached;
      `Engine` records the key id, the temporary keyring and the status. */
  datatype Stage =
    | NoPackage
    | NoSignature
    | NoKey(keyid: string)
    | Aborted(exc: Exc)
    | Engine(keyid: string, keyring: string, status: Outcome<Option<string>>)

  /** What the key steps of `verify` (lines 202-215) end in, on a host holding
      `files`, `dirs` and `environ` once the signature is on disk: the key id
      as `get_keyid` gives it (an exception aborts); no key file for it in the
      keyring directory ends the verification; otherwise the engine's
      status, for that key file and a fresh keyring, is the stage. */
  ghost predicate KeyOutcome(world: World, files: map<string, Bytes>, dirs: set<string>,
                             environ: map<string, string>, signature: string, pkg: string, stage: Stage) {
    KeyOutcomeFor(world, files, dirs, environ, Keyid(world, files, environ, signature), signature, pkg, stage)
  }

  /** `KeyOutcome` once the key id `get_keyid` gives is known to be `k`. */
  ghost predicate KeyOutcomeFor(world: World, files: map<string, Bytes>, dirs: set<string>,
                                environ: map<string, string>, k: Outcome<string>, signature: string, pkg: string,
                                stage: Stage) {
    if k.Throw? then stage.Aborted? && stage.exc == k.exc
    else
      var key := PubkeyPath(world.scriptDir, k.value);
      if key !in files && key !in dirs then stage.NoKey? && stage.keyid == k.value
      else
        && stage.Engine? && stage.keyid == k.value
        && FreshKeyring(stage.keyring, files, dirs)
        && stage.status == EngineOutcome(world, files, environ, stage.keyring, key, pkg, signature)
  }

  /** `KeyOutcome` is `KeyOutcomeFor` the key id `get_keyid` gives. */
  lemma KeyOutcomeOf(world: World, files: map<string, Bytes>, dirs: set<string>, environ: map<string, string>,
                     k: Outcome<string>, signature: string, pkg: string, stage: Stage)
    requires k == Keyid(world, files, environ, signature)
    requires KeyOutcomeFor(world, files, dirs, environ, k, signature, pkg, stage)
    ensures KeyOutcome(world, files, dirs, environ, signature, pkg, stage)
  {
  }

  /** The signature is usable: on disk already, or downloaded with HTTP 200. */
  predicate SignatureReady(files: map<string, Bytes>, dirs: set<string>, signature: string, t: Transfer) {
    signature in files || signature in dirs || (signature != "" && Status(t) == Some(HTTP_OK))
  }

  /** The files once the signature step is done. */
  function SignedFiles(files: map<string, Bytes>, dirs: set<string>, signature: string, t: Transfer)
    : map<string, Bytes> {
    if signature == "" || signature in files || signature in dirs then files else FilesAfter(files, signature, t)
  }

  /** The environment once the key steps are done: as the engine leaves it,
      or as it was when no engine ran. */
  ghost function KeyEnviron(world: World, files: map<string, Bytes>, environ: map<string, string>,
                            signature: string, pkg: string, stage: Stage): map<string, string> {
    if stage.Engine? then EngineEnviron(world, files, environ, pkg, signature) else environ
  }

  /** Without `GNUPGHOME` to begin with, the key steps leave the environment
      as it was: the variable they export is deleted again. */
  lemma KeyEnvironUnset(world: World, files: map<string, Bytes>, environ: map<string, string>,
                        signature: string, pkg: string, stage: Stage)
    requires GNUPGHOME !in environ
    ensures KeyEnviron(world, files, environ, signature, pkg, stage) == environ
  {
    assert environ - {GNUPGHOME} == environ;
  }

  /** The host `verify` leaves once the package was found on a host holding
      `files`, `dirs` and `environ`: the files the signature step leaves
      (a downloaded or partial signature), the same directories (every
      temporary keyring is gone), and the environment the key steps leave. */
  ghost predicate HostAfter(world: World, files: map<string, Bytes>, dirs: set<string>,
                            environ: map<string, string>, signature: string, t: Transfer, pkg: string,
                            stage: Stage, files1: map<string, Bytes>, dirs1: set<string>,
                            environ1: map<string, string>) {
    var signed := SignedFiles(files, dirs, signature, t);
    && files1 == signed && dirs1 == dirs
    && environ1 == KeyEnviron(world, signed, environ, signature, pkg, stage)
  }

  /** What `verify` ends in once the package is on disk: the key steps run
      exactly when the signature is usable, and then end as `KeyOutcome`
      says for the files after the signature step. */
  ghost predicate AfterSignature(world: World, files: map<string, Bytes>, dirs: set<string>,
                                 environ: map<string, string>, signature: string, t: Transfer,
                                 pkg: string, stage: Stage) {
    && (SignatureReady(files, dirs, signature, t) ==>
          KeyOutcome(world, SignedFiles(files, dirs, signature, t), dirs, environ, signature, pkg, stage))
    && (stage.NoKey? || stage.Engine? ==> SignatureReady(files, dirs, signature, t))
  }

  /** The key steps, run on the host the signature step leaves, give what
      `AfterSignature` and `HostAfter` say of the host before it. */
  lemma KeyStepAfter(world: World, files: map<string, Bytes>, dirs: set<string>, environ: map<string, string>,
                     signature: string, t: Transfer, pkg: string, stage: Stage,
                     files1: map<string, Bytes>, files2: map<string, Bytes>, dirs2: set<string>,
                     environ2: map<string, string>)
    requires SignatureReady(files, dirs, signature, t) && files1 == SignedFiles(files, dirs, signature, t)
    requires KeyOutcome(world, files1, dirs, environ, signature, pkg, stage)
    requires files2 == files1 && dirs2 == dirs && environ2 == KeyEnviron(world, files1, environ, signature, pkg, stage)
    ensures AfterSignature(world, files, dirs, environ, signature, t, pkg, stage)
    ensures HostAfter(world, files, dirs, environ, signature, t, pkg, stage, files2, dirs2, environ2)
  {
  }

  /** As written, the import block binds `Popen` only where the gpgme binding
      fails to import. With the binding loaded, the key steps therefore end
      in `NameError` before any engine is asked. */
  lemma GpgmeNeverReached(world: World, files: map<string, Bytes>, dirs: set<string>,
                          environ: map<string, string>, signature: string, pkg: string, stage: Stage)
    requires world.popenBound == world.gpgCli && !world.gpgCli
    requires KeyOutcome(world, files, dirs, environ, signature, pkg, stage)
    ensures stage.Aborted? && stage.exc == NameError
  {
  }

  /** With `Popen` bound in both branches of the import block, the gpgme
      binding decides: a parsed key id whose key file exists leads to the
      binding's verdict for that key file. */
  lemma GpgmeDecides(world: World, files: map<string, Bytes>, dirs: set<string>,
                     environ: map<string, string>, signature: string, pkg: string, stage: Stage)
    requires world.popenBound && !world.gpgCli
    requires KeyOutcome(world, files, dirs, environ, signature, pkg, stage)
    requires KeyidOf(world.gpg(ListPacketArgs(signature), files, environ)).Return?
    requires var k := KeyidOf(world.gpg(ListPacketArgs(signature), files, environ)).value;
      PubkeyPath(world.scriptDir, k) in files
    ensures stage.Engine?
    ensures var key := PubkeyPath(world.scriptDir, stage.keyid);
      stage.status == GpgmeOutcome(world, files, environ[GNUPGHOME := stage.keyring], key, pkg, signature)
  {
  }

  /** With the `gpg` program, a key id that parses, its key file present, and
      gpg exiting with 0 for every call, the stage is a good signature. */
  lemma GoodCliSignature(world: World, files: map<string, Bytes>, dirs: set<string>,
                         environ: map<string, string>, signature: string, pkg: string, stage: Stage)
    requires world.popenBound && world.gpgCli
    requires KeyOutcome(world, files, dirs, environ, signature, pkg, stage)
    requires KeyidOf(world.gpg(ListPacketArgs(signature), files, environ)).Return?
    requires var k := KeyidOf(world.gpg(ListPacketArgs(signature), files, environ)).value;
      PubkeyPath(world.scriptDir, k) in files || PubkeyPath(world.scriptDir, k) in dirs
    requires forall args, f, e :: world.gpg(args, f, e).code == 0
    ensures stage.Engine? && stage.status == Return(None)
  {
    var key := PubkeyPath(world.scriptDir, KeyidOf(world.gpg(ListPacketArgs(signature), files, environ)).value);
    assert stage.Engine? && stage.status == EngineOutcome(world, files, environ, stage.keyring, key, pkg, signature);
    var env := environ[GNUPGHOME := stage.keyring];
    assert world.gpg(ImportArgs(key), files, env).code == 0;
    assert world.gpg(VerifyArgs(GpgCli(VERIFY_ARGS), pkg, signature), files, env).code == 0;
  }

  /** With no key file for any key id, the key steps never reach an engine. */
  lemma MissingKeyRejected(world: World, files: map<string, Bytes>, dirs: set<string>,
                           environ: map<string, string>, signature: string, pkg: string, stage: Stage)
    requires KeyOutcome(world, files, dirs, environ, signature, pkg, stage)
    requires forall k :: PubkeyPath(world.scriptDir, k) !in files && PubkeyPath(world.scriptDir, k) !in dirs
    ensures !stage.Engine?
  {
  }

  class GpgVerifier {
    var url: Option<string>
    var keyUrl: Option<string>
    var packagePath: Option<string>
    var packageSignPath: string

    /** `GPGVerifier(url=…, key_url=…, package_path=…, package_sign_path=…)`
        once the arguments are known to give a signature path. The key URL
        defaults to `url + '.asc'` only when a URL is given and a key URL is
        not; the signature path defaults to `package_path + '.asc'`. */
    constructor (url: Option<string>, keyUrl: Option<string>, packagePath: Option<string>,
                 packageSignPath: Option<string>)
      requires packageSignPath.Some? || packagePath.Some?
      ensures this.url == url && this.packagePath == packagePath
      ensures keyUrl.Some? ==> this.keyUrl == keyUrl
      ensures keyUrl.None? && url.Some? ==> this.keyUrl == Some(url.value + ASC)
      ensures keyUrl.None? && url.None? ==> this.keyUrl == None
      ensures packageSignPath.Some? ==> this.packageSignPath == packageSignPath.value
      ensures packageSignPath.None? ==> this.packageSignPath == packagePath.value + ASC
    {
      this.url := url;
      this.packagePath := packagePath;
      this.keyUrl := keyUrl;
      if keyUrl.None? && url.Some? {
        this.keyUrl := Some(url.value + ASC);
      }
      if packageSignPath.None? {
        this.packageSignPath := packagePath.value + ASC;
      } else {
        this.packageSignPath := packageSignPath.value;
      }
    }

    /** `GPGVerifier(**kwargs)`: `None + '.asc'` raises `TypeError` when
        neither a signature path nor a package path is given. */
    static method Create(url: Option<string>, keyUrl: Option<string>, packagePath: Option<string>,
                         packageSignPath: Option<string>)
      returns (r: Outcome<GpgVerifier>)
      ensures r.Throw? <==> packageSignPath.None? && packagePath.None?
      ensures r.Throw? ==> r.exc == TypeError
      ensures r.Return? ==> fresh(r.value) && r.value.url == url && r.value.packagePath == packagePath
      ensures r.Return? ==> r.value.keyUrl == if keyUrl.None? && url.Some? then Some(url.value + ASC) else keyUrl
      ensures r.Return? ==>
        r.value.packageSignPath == if packageSignPath.Some? then packageSignPath.value else packagePath.value + ASC
    {
      if packageSignPath.None? && packagePath.None? {
        return Throw(TypeError);
      }
      var v := new GpgVerifier(url, keyUrl, packagePath, packageSignPath);
      r := Return(v);
    }

    /** `get_pubkey_path()`: the key file named by the signature's key id. */
    method GetPubkeyPath(host: Host, world: World) returns (r: Outcome<string>)
      modifies host`calls
      ensures host.files == old(host.files) && host.environ == old(host.environ)
      ensures host.calls == old(host.calls) + ListingCalls(world, old(host.files), old(host.environ), packageSignPath)
      ensures var k := Keyid(world, old(host.files), old(host.environ), packageSignPath);
        && (r.Throw? <==> k.Throw?)
        && (r.Throw? ==> r.exc == k.exc)
        && (r.Return? ==> r.value == PubkeyPath(world.scriptDir, k.value))
    {
      var keyid := GetKeyid(host, world, packageSignPath);
      if keyid.Throw? {
        return Throw(keyid.exc);
      }
      r := Return(PubkeyPath(world.scriptDir, keyid.value));
    }

    /** `get_sign()`: downloads the signature from the key URL; True only for
        HTTP 200, otherwise an error line naming the URL and the code. */
    method GetSign(host: Host, world: World) returns (r: Outcome<bool>)
      requires host.Valid()
      modifies host`files, host`calls, host`reports
      ensures host.Valid()
      ensures packageSignPath == "" || packageSignPath in old(host.dirs) ==>
        && r == Throw(OSError) && host.files == old(host.files)
        && host.calls == old(host.calls) && host.reports == old(host.reports)
      ensures packageSignPath != "" && packageSignPath !in old(host.dirs) ==>
        var t := world.net(keyUrl);
        && host.calls == old(host.calls) + [Fetch(keyUrl, packageSignPath, t)]
        && host.files == FilesAfter(old(host.files), packageSignPath, t)
        && r == Return(Status(t) == Some(HTTP_OK))
        && (Status(t) == Some(HTTP_OK) ==> host.reports == old(host.reports))
        && (Status(t) != Some(HTTP_OK) ==>
              host.reports == old(host.reports) + [Error(DownloadFailed(keyUrl, Status(t)))])
    {
      var code := AttemptToDownload(host, world, keyUrl, packageSignPath);
      if code.Throw? {
        return Throw(code.exc);
      }
      if code.value == Some(HTTP_OK) {
        return Return(true);
      }
      host.Say(Error(DownloadFailed(keyUrl, code.value)));
      r := Return(false);
    }

    /** Lines 199-201 of `verify`: a signature already on disk is used as it
        is; a missing one is downloaded, and a failed download also prints
        that the signature was not found. */
    method SignatureStep(host: Host, world: World) returns (r: Outcome<bool>)
      requires host.Valid()
      modifies host`files, host`calls, host`reports
      ensures host.Valid()
      ensures r == Return(true) ==> host.Exists(packageSignPath)
      ensures r == Return(true) <==> SignatureReady(old(host.files), old(host.dirs), packageSignPath, world.net(keyUrl))
      ensures host.files == SignedFiles(old(host.files), old(host.dirs), packageSignPath, world.net(keyUrl))
      ensures old(host.Exists(packageSignPath)) ==>
        && r == Return(true) && host.files == old(host.files)
        && host.calls == old(host.calls) && host.reports == old(host.reports)
      ensures !old(host.Exists(packageSignPath)) && packageSignPath == "" ==>
        r == Throw(OSError) && host.calls == old(host.calls) && host.reports == old(host.reports)
      ensures !old(host.Exists(packageSignPath)) && packageSignPath != "" ==>
        var t := world.net(keyUrl);
        && host.calls == old(host.calls) + [Fetch(keyUrl, packageSignPath, t)]
        && r == Return(Status(t) == Some(HTTP_OK))
        && (Status(t) == Some(HTTP_OK) ==> host.reports == old(host.reports))
        && (Status(t) != Some(HTTP_OK) ==>
              host.reports == old(host.reports) + [Error(DownloadFailed(keyUrl, Status(t))),
                                                   ResultReport(url, false, packageSignPath + " not found")])
    {
      if host.Exists(packageSignPath) {
        return Return(true);
      }
      r := GetSign(host, world);
      if r == Return(false) {
        host.Say(ResultReport(url, false, packageSignPath + " not found"));
      }
    }

    /** Lines 202-206 of `verify`: the key file named by the signature's key
        id; when it is missing, gpg is asked for the key id a second time and
        the failure line names it. `Some(path)` lets the verification go on.
        `ls` is what one listing leaves in the trace. */
    method KeyLookup(host: Host, world: World)
      returns (r: Outcome<Option<string>>, ghost keyid: string, ghost ls: seq<Call>)
      modifies host`calls, host`reports
      ensures ls == ListingCalls(world, old(host.files), old(host.environ), packageSignPath)
      ensures var k := Keyid(world, old(host.files), old(host.environ), packageSignPath);
        && (r.Throw? <==> k.Throw?)
        && (r.Throw? ==> r.exc == k.exc && host.calls == old(host.calls) + ls && host.reports == old(host.reports))
        && (r.Return? ==> k.Return? && k.value == keyid)
      ensures r.Return? && r.value.Some? ==>
        && r.value.value == PubkeyPath(world.scriptDir, keyid) && host.Exists(r.value.value)
        && host.calls == old(host.calls) + ls && host.reports == old(host.reports)
      ensures r == Return(None) ==>
        && !host.Exists(PubkeyPath(world.scriptDir, keyid)) && host.calls == old(host.calls) + ls + ls
        && host.reports == old(host.reports) + [ResultReport(url, false, "Public key " + keyid + " not found in keyring")]
    {
      keyid := "";
      ls := ListingCalls(world, host.files, host.environ, packageSignPath);
      var pubKey := GetPubkeyPath(host, world);
      if !world.popenBound {
        return Throw(NameError), keyid, ls;
      }
      ghost var k := KeyidOf(world.gpg(ListPacketArgs(packageSignPath), old(host.files), old(host.environ)));
      if pubKey.Throw? {
        return Throw(pubKey.exc), keyid, ls;
      }
      keyid := k.value;
      r := KeyFile(host, world, pubKey.value, keyid, ls);
    }

    /** Lines 204-206 of `verify`: a missing key file is reported, the key id
        being listed again for the message; an existing one is the key to use. */
    method KeyFile(host: Host, world: World, pubKey: string, ghost keyid: string, ghost ls: seq<Call>)
      returns (r: Outcome<Option<string>>)
      requires world.popenBound
      requires ls == ListingCalls(world, host.files, host.environ, packageSignPath)
      requires Keyid(world, host.files, host.environ, packageSignPath) == Return(keyid)
      requires pubKey == PubkeyPath(world.scriptDir, keyid)
      modifies host`calls, host`reports
      ensures host.Exists(pubKey) ==>
        r == Return(Some(pubKey)) && host.calls == old(host.calls) && host.reports == old(host.reports)
      ensures !host.Exists(pubKey) ==>
        && r == Return(None)
        && host.calls == old(host.calls) + ls
        && host.reports == old(host.reports) + [ResultReport(url, false, "Public key " + keyid + " not found in keyring")]
    {
      if host.Exists(pubKey) {
        return Return(Some(pubKey));
      }
      var again := GetKeyid(host, world, packageSignPath);
      assert again.value == keyid;
      host.Say(ResultReport(url, false, "Public key " + again.value + " not found in keyring"));
      r := Return(None);
    }

    /** Lines 207-215 of `verify`: the engine's status decides; a good
        signature prints the success line (the package path is the value
        shown, so a non-empty path reads as success) and gives True. */
    method EngineStep(host: Host, world: World, pkg: string, pubKey: string)
      returns (r: Outcome<bool>, status: Outcome<Option<string>>, ghost keyring: string)
      requires host.Valid()
      modifies host`files, host`dirs, host`environ, host`calls, host`reports
      ensures host.Valid()
      ensures host.files == old(host.files) && host.dirs == old(host.dirs)
      ensures host.environ == EngineEnviron(world, old(host.files), old(host.environ), pkg, packageSignPath)
      ensures old(host.calls) <= host.calls && OnlyEngine(host.calls[|old(host.calls)|..])
      ensures FreshKeyring(keyring, old(host.files), old(host.dirs))
      ensures status == EngineOutcome(world, old(host.files), old(host.environ), keyring, pubKey, pkg, packageSignPath)
      ensures status.Throw? ==> r == Throw(status.exc) && host.reports == old(host.reports)
      ensures status.Return? ==> r == Return(status.value.None?)
      ensures status == Return(None) ==> host.reports == old(host.reports) + [ResultReport(url, pkg != "", "")]
      ensures status.Return? && status.value.Some? ==>
        host.reports == old(host.reports) + [ResultReport(url, false, status.value.value)]
    {
      status, keyring := SignEngine(host, world, pubKey, pkg, packageSignPath);
      if status.Throw? {
        return Throw(status.exc), status, keyring;
      }
      if status.value.None? {
        // `print_result(self.package_path)`
        host.Say(ResultReport(url, pkg != "", ""));
        return Return(true), status, keyring;
      }
      host.Say(ResultReport(url, false, status.value.value));
      r := Return(false);
    }

    /** The engine step after the listing `ls` found the key file `pubKey`. */
    method EngineStage(host: Host, world: World, pkg: string, pubKey: string, ghost keyid: string,
                       ghost c0: seq<Call>, ghost ls: seq<Call>, ghost files: map<string, Bytes>, ghost dirs: set<string>,
                       ghost environ: map<string, string>)
      returns (r: Outcome<bool>, ghost stage: Stage)
      requires host.Valid()
      requires pubKey == PubkeyPath(world.scriptDir, keyid) && host.Exists(pubKey)
      requires host.calls == c0 + ls
      requires host.files == files && host.dirs == dirs && host.environ == environ
      modifies host`files, host`dirs, host`environ, host`calls, host`reports
      ensures host.Valid()
      ensures ThenEngine(c0, host.calls, ls)
      ensures host.files == files && host.dirs == dirs
      ensures stage.Engine? && stage.keyid == keyid
      ensures KeyOutcomeFor(world, files, dirs, environ, Return(keyid),
                            packageSignPath, pkg, stage)
      ensures host.environ == KeyEnviron(world, files, environ, packageSignPath, pkg, stage)
      ensures stage.status.Throw? ==> r == Throw(stage.status.exc) && host.reports == old(host.reports)
      ensures stage.status.Return? ==> r == Return(stage.status.value.None?)
      ensures r == Return(true) ==> host.reports == old(host.reports) + [ResultReport(url, pkg != "", "")]
      ensures stage.status.Return? && stage.status.value.Some? ==>
        host.reports == old(host.reports) + [ResultReport(url, false, stage.status.value.value)]
    {
      ghost var status, keyring;
      r, status, keyring := EngineStep(host, world, pkg, pubKey);
      stage := Engine(keyid, keyring, status);
      ThenEngineIntro(c0, old(host.calls), host.calls, ls);
    }

    /** Lines 202-215 of `verify`, once package and signature are on disk:
        the stage is what `KeyOutcome` says for the host as it was. */
    method KeyStep(host: Host, world: World, pkg: string)
      returns (r: Outcome<bool>, ghost stage: Stage, ghost ls: seq<Call>)
      requires host.Valid()
      modifies host`files, host`dirs, host`environ, host`calls, host`reports
      ensures host.Valid()
      ensures KeyOutcome(world, old(host.files), old(host.dirs), old(host.environ), packageSignPath, pkg, stage)
      ensures stage.NoKey? || stage.Engine? || stage.Aborted?
      ensures host.files == old(host.files) && host.dirs == old(host.dirs)
      ensures host.environ == KeyEnviron(world, old(host.files), old(host.environ), packageSignPath, pkg, stage)
      ensures ls == ListingCalls(world, old(host.files), old(host.environ), packageSignPath)
      ensures stage.Aborted? ==>
        r == Throw(stage.exc) && host.calls == old(host.calls) + ls && host.reports == old(host.reports)
      ensures stage.NoKey? ==> host.calls == old(host.calls) + ls + ls
      ensures stage.Engine? ==> ThenEngine(old(host.calls), host.calls, ls)
      ensures stage.NoKey? ==>
        && r == Return(false) && !host.Exists(PubkeyPath(world.scriptDir, stage.keyid))
        && host.reports == old(host.reports) +
             [ResultReport(url, false, "Public key " + stage.keyid + " not found in keyring")]
      ensures stage.Engine? && stage.status.Throw? ==>
        r == Throw(stage.status.exc) && host.reports == old(host.reports)
      ensures stage.Engine? && stage.status.Return? ==> r == Return(stage.status.value.None?)
      ensures r == Return(true) ==> host.reports == old(host.reports) + [ResultReport(url, pkg != "", "")]
      ensures stage.Engine? && stage.status.Return? && stage.status.value.Some? ==>
        host.reports == old(host.reports) + [ResultReport(url, false, stage.status.value.value)]
    {
      ghost var keyid;
      var found;
      found, keyid, ls := KeyLookup(host, world);
      if found.Throw? {
        return Throw(found.exc), Aborted(found.exc), ls;
      }
      if found.value.None? {
        return Return(false), NoKey(keyid), ls;
      }
      r, stage := EngineStage(host, world, pkg, found.value.value, keyid, old(host.calls), ls,
                              old(host.files), old(host.dirs), old(host.environ));
      KeyOutcomeOf(world, old(host.files), old(host.dirs), old(host.environ), Return(keyid), packageSignPath, pkg, stage);
    }

    /** Lines 199-215 of `verify`, once the package is known to exist: the
        signature is found or downloaded, then the key steps run. */
    method Proceed(host: Host, world: World, pkg: string) returns (r: Outcome<bool>, ghost stage: Stage)
      requires host.Valid()
      modifies host`files, host`dirs, host`environ, host`calls, host`reports
      ensures host.Valid()
      ensures old(host.calls) <= host.calls
      ensures !stage.NoPackage?
      ensures AfterSignature(world, old(host.files), old(host.dirs), old(host.environ), packageSignPath,
                             world.net(keyUrl), pkg, stage)
      ensures HostAfter(world, old(host.files), old(host.dirs), old(host.environ), packageSignPath,
                        world.net(keyUrl), pkg, stage, host.files, host.dirs, host.environ)
      ensures old(host.Exists(packageSignPath)) ==> NoFetch(host.calls[|old(host.calls)|..])
      ensures !old(host.Exists(packageSignPath)) ==>
        && (packageSignPath == "" ==> r == Throw(OSError) && host.calls == old(host.calls))
        && (packageSignPath != "" ==>
              && |host.calls| > |old(host.calls)|
              && host.calls[|old(host.calls)|] == Fetch(keyUrl, packageSignPath, world.net(keyUrl))
              && (stage.NoSignature? <==> Status(world.net(keyUrl)) != Some(HTTP_OK)))
      ensures stage.NoSignature? ==>
        && r == Return(false)
        && host.calls == old(host.calls) + [Fetch(keyUrl, packageSignPath, world.net(keyUrl))]
        && host.reports == old(host.reports) + [Error(DownloadFailed(keyUrl, Status(world.net(keyUrl)))),
                                                ResultReport(url, false, packageSignPath + " not found")]
      ensures stage.NoKey? ==>
        && r == Return(false) && !host.Exists(PubkeyPath(world.scriptDir, stage.keyid))
        && host.reports == old(host.reports) +
             [ResultReport(url, false, "Public key " + stage.keyid + " not found in keyring")]
      ensures !stage.Engine? ==> NoEngine(host.calls[|old(host.calls)|..])
      ensures stage.Aborted? ==> r == Throw(stage.exc)
      ensures stage.Engine? && stage.status.Throw? ==> r == Throw(stage.status.exc)
      ensures stage.Engine? && stage.status.Return? ==> r == Return(stage.status.value.None?)
      ensures r == Return(true) ==> stage.Engine? && host.reports == old(host.reports) + [ResultReport(url, pkg != "", "")]
      ensures stage.Engine? && stage.status.Return? && stage.status.value.Some? ==>
        host.reports == old(host.reports) + [ResultReport(url, false, stage.status.value.value)]
    {
      ghost var c0 := host.calls;
      ghost var f := Fetch(keyUrl, packageSignPath, world.net(keyUrl));
      var signed := SignatureStep(host, world);
      if signed.Throw? {
        return Throw(signed.exc), Aborted(signed.exc);
      }
      if !signed.value {
        return Return(false), NoSignature;
      }
      ghost var c1, c1f := host.calls, host.files;
      ListingIsPlain(world, host.files, host.environ, packageSignPath);
      ghost var ls;
      r, stage, ls := KeyStep(host, world, pkg);
      KeyStepAfter(world, old(host.files), old(host.dirs), old(host.environ), packageSignPath, world.net(keyUrl),
                   pkg, stage, c1f, host.files, host.dirs, host.environ);
      KeyTrace(c1, host.calls, ls, stage.Engine?);
      WholeTrace(c0, c1, host.calls, f, stage.Engine?);
    }

    /** `verify()`. Returns True exactly when the engine reports a good
        signature; every check that fails prints a failure line and returns
        None (`false` here); exceptions propagate. */
    method Verify(host: Host, world: World) returns (r: Outcome<bool>, ghost stage: Stage)
      requires host.Valid()
      modifies host`files, host`dirs, host`environ, host`calls, host`reports
      ensures host.Valid()
      ensures old(host.calls) <= host.calls
      // `os.path.exists(None)` raises
      ensures packagePath.None? ==> r == Throw(TypeError) && host.calls == old(host.calls)
      // a missing package ends the verification before anything else is done
      ensures packagePath.Some? ==> (stage.NoPackage? <==> !old(host.Exists(packagePath.value)))
      ensures stage.NoPackage? ==>
        && r == Return(false) && host.calls == old(host.calls) && host.files == old(host.files)
        && host.reports == old(host.reports) + [ResultReport(url, false, packagePath.value + " not found")]
      // the signature is downloaded only when it is missing, and the download is the first call
      ensures old(host.Exists(packageSignPath)) ==> NoFetch(host.calls[|old(host.calls)|..])
      ensures packagePath.Some? && old(host.Exists(packagePath.value)) && !old(host.Exists(packageSignPath)) ==>
        && (packageSignPath == "" ==> r == Throw(OSError) && host.calls == old(host.calls))
        && (packageSignPath != "" ==>
              && |host.calls| > |old(host.calls)|
              && host.calls[|old(host.calls)|] == Fetch(keyUrl, packageSignPath, world.net(keyUrl))
              && (stage.NoSignature? <==> Status(world.net(keyUrl)) != Some(HTTP_OK)))
      ensures stage.NoSignature? ==>
        && r == Return(false)
        && host.calls == old(host.calls) + [Fetch(keyUrl, packageSignPath, world.net(keyUrl))]
        && host.reports == old(host.reports) + [Error(DownloadFailed(keyUrl, Status(world.net(keyUrl)))),
                                                ResultReport(url, false, packageSignPath + " not found")]
      // with the package on disk, the key steps end as `KeyOutcome` says
      ensures packagePath.Some? && old(host.Exists(packagePath.value)) ==>
        AfterSignature(world, old(host.files), old(host.dirs), old(host.environ), packageSignPath,
                       world.net(keyUrl), packagePath.value, stage)
      ensures stage.NoKey? || stage.Engine? ==> packagePath.Some? && old(host.Exists(packagePath.value))
      // the host left behind: the signature step's files, the same directories, the engine's environment
      ensures packagePath.Some? && old(host.Exists(packagePath.value)) ==>
        HostAfter(world, old(host.files), old(host.dirs), old(host.environ), packageSignPath,
                  world.net(keyUrl), packagePath.value, stage, host.files, host.dirs, host.environ)
      ensures packagePath.None? || !old(host.Exists(packagePath.value)) ==>
        host.files == old(host.files) && host.dirs == old(host.dirs) && host.environ == old(host.environ)
      // a missing key file ends the verification without the engine
      ensures stage.NoKey? ==>
        && r == Return(false) && !host.Exists(PubkeyPath(world.scriptDir, stage.keyid))
        && host.reports == old(host.reports) +
             [ResultReport(url, false, "Public key " + stage.keyid + " not found in keyring")]
      ensures !stage.Engine? ==> NoEngine(host.calls[|old(host.calls)|..])
      ensures stage.Aborted? ==> r == Throw(stage.exc)
      // the engine's status decides the result
      ensures stage.Engine? && stage.status.Throw? ==> r == Throw(stage.status.exc)
      ensures stage.Engine? && stage.status.Return? ==> r == Return(stage.status.value.None?)
      ensures r == Return(true) <==> stage.Engine? && stage.status == Return(None)
      ensures r == Return(true) ==> host.reports == old(host.reports) + [ResultReport(url, true, "")]
      ensures stage.Engine? && stage.status.Return? && stage.status.value.Some? ==>
        host.reports == old(host.reports) + [ResultReport(url, false, stage.status.value.value)]
    {
      stage := Aborted(TypeError);
      if packagePath.None? {
        return Throw(TypeError), stage;
      }
      var pkg := packagePath.value;
      if !host.Exists(pkg) {
        host.Say(ResultReport(url, false, pkg + " not found"));
        return Return(false), NoPackage;
      }
      assert pkg != "";
      r, stage := Proceed(host, world, pkg);
    }
  }

}
