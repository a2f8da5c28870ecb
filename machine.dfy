/** The environment the verifier runs in. `Host` is the mutable operating-system
    state the code reads and changes (files, temporary directories, the process
    environment) together with a trace of every external call and every
    message printed. `World` holds the collaborators whose behaviour is
    not modelled (network, the `gpg` program, the gpgme binding, the registry,
    SHA-256); each is a function of its inputs. */
module Machine {
  import opened Base

  type Bytes = seq<bv8>

  const GNUPGHOME: string := "GNUPGHOME"

  /** What fetching a URL does: the transfer finishes with an HTTP code and
      a body, or a transport error interrupts it after some bytes. */
  datatype Transfer = Completed(code: int, body: Bytes) | TransportError(partial: Bytes)

  /** A finished sub-process: standard output, standard error, exit code. */
  datatype ToolRun = ToolRun(out: string, err: string, code: int)

  /** One release object of the registry's JSON list. A `number` or `sha`
      that is absent (or not a string) is `None`. */
  datatype GemRecord = GemRecord(number: Option<string>, sha: Option<string>)

  /** What querying the registry yields once the body is decoded as JSON. */
  datatype Registry = Releases(records: seq<GemRecord>) | JsonNull | BadJson | Unreachable

  /** An external call and what it answered, in the order made. */
  datatype Call =
    | Fetch(url: Option<string>, dest: string, transfer: Transfer)
    | Run(args: seq<string>, reply: ToolRun)
    | GpgmeImport(pubkey: string, imported: bool)
    | GpgmeVerify(signature: string, data: string, statuses: seq<Option<string>>)
    | Query(endpoint: string, answer: Registry)

  /** A line printed by `print_success`, `print_error` or plain `print`. */
  datatype Report = Success(text: string) | Error(text: string) | Plain(text: string)

  /** The collaborators, fixed for one run. `gpgCli` is true when the gpgme
      binding could not be imported and the `gpg` program is used instead.
      `popenBound` is true when the module has the names `Popen` and `PIPE`:
      the import block binds them only in the branch where gpgme fails to
      import, so as written `popenBound == gpgCli`. */
  datatype World = World(
    net: Option<string> -> Transfer,
    gpg: (seq<string>, map<string, Bytes>, map<string, string>) -> ToolRun,
    gpgmeImport: (Bytes, map<string, string>) -> bool,
    gpgmeVerify: (Bytes, Bytes, map<string, string>) -> seq<Option<string>>,
    registry: string -> Registry,
    sha256: Bytes -> string,
    scriptDir: string,
    gpgCli: bool,
    popenBound: bool)

  class Host {
    var files: map<string, Bytes>
    var dirs: set<string>
    var environ: map<string, string>
    var calls: seq<Call>
    var reports: seq<Report>

    /** No entry has the empty name, and no path is both a file and a directory. */
    ghost predicate Valid()
      reads this
    {
      "" !in files && "" !in dirs && files.Keys !! dirs
    }

    /** `os.path.exists`: a file or a directory; on a valid host the empty
        path never exists. */
    predicate Exists(p: string)
      reads this
      ensures Valid() && Exists(p) ==> p != ""
    {
      p in files || p in dirs
    }

    constructor (files: map<string, Bytes>, dirs: set<string>, environ: map<string, string>)
      requires "" !in files && "" !in dirs && files.Keys !! dirs
      ensures Valid()
      ensures this.files == files && this.dirs == dirs && this.environ == environ
      ensures calls == [] && reports == []
    {
      this.files := files;
      this.dirs := dirs;
      this.environ := environ;
      calls := [];
      reports := [];
    }

    /** Prints one line. */
    method Say(r: Report)
      modifies this`reports
      ensures reports == old(reports) + [r]
      ensures files == old(files) && dirs == old(dirs)
    {
      reports := reports + [r];
    }

    /** Records an external call. */
    method Record(c: Call)
      modifies this`calls
      ensures calls == old(calls) + [c]
    {
      calls := calls + [c];
    }
  }
}
