/** `attempt_to_download`: fetches a URL into a destination file and decides
    which outcomes leave that file on disk. */
module Download {
  import opened Base
  import opened Machine

  const HTTP_OK: int := 200

  /** The value returned for a finished transfer: its HTTP code, or None when
      a transport error interrupted it. */
  function Status(t: Transfer): (code: Option<int>)
    ensures code.None? <==> t.TransportError?
    ensures t.Completed? ==> code == Some(t.code)
  {
    match t
    case Completed(code, _) => Some(code)
    case TransportError(_) => None
  }

  /** The files after a download into `dest`: the destination holds the bytes
      that arrived, and is removed exactly when the server answered with a
      code other than 200. A transport error leaves the partial file behind.
      No other path changes. */
  function FilesAfter(files: map<string, Bytes>, dest: string, t: Transfer): (r: map<string, Bytes>)
    ensures dest in r <==> Status(t) == Some(HTTP_OK) || Status(t) == None
    ensures dest in r ==> r[dest] == if t.Completed? then t.body else t.partial
    ensures forall p :: p != dest ==> (p in r <==> p in files)
    ensures forall p :: p != dest && p in r ==> r[p] == files[p]
  {
    match t
    case Completed(code, body) => if code != HTTP_OK then files - {dest} else files[dest := body]
    case TransportError(partial) => files[dest := partial]
  }

  /** `attempt_to_download(url, dest)`. Opening `dest` for writing creates it
      empty (or raises when it names no file that can be written); the
      transfer then fills it; a finished transfer with a code other than 200
      unlinks it; a transport error returns None and leaves it. */
  method AttemptToDownload(host: Host, world: World, url: Option<string>, dest: string)
    returns (r: Outcome<Option<int>>)
    requires host.Valid()
    modifies host`files, host`calls
    ensures host.Valid()
    ensures dest == "" || dest in host.dirs ==>
      r == Throw(OSError) && host.files == old(host.files) && host.calls == old(host.calls)
    ensures dest != "" && dest !in host.dirs ==>
      && r == Return(Status(world.net(url)))
      && host.calls == old(host.calls) + [Fetch(url, dest, world.net(url))]
      && host.files == FilesAfter(old(host.files), dest, world.net(url))
  {
    if dest == "" || dest in host.dirs {
      return Throw(OSError);
    }
    host.files := host.files[dest := []];
    var t := world.net(url);
    host.Record(Fetch(url, dest, t));
    match t {
      case TransportError(partial) =>
        host.files := host.files[dest := partial];
        UpdateTwice(old(host.files), dest, [], partial);
        return Return(None);
      case Completed(code, body) =>
        host.files := host.files[dest := body];
        UpdateTwice(old(host.files), dest, [], body);
        if code != HTTP_OK {
          host.files := host.files - {dest};
          RemoveUpdated(old(host.files), dest, body);
        }
        return Return(Some(code));
    }
  }
}
