/** The remote file a host agent downloads into its image cache: the
    constructor defaults, the HTTP request for headers or data, the status
    handling, the fallback from the cached URL to the direct one, the
    bounded retry with its checksum check and the final move into place,
    and the entry point that first checks a file already present. The
    network, the file system and MD5 are parameters; a call's reply is
    chosen by its position in the sequence of calls. */
module RemoteFile {
  import opened Wrappers

  /** File contents, left abstract. */
  type Blob = string

  datatype RemoteFile = RemoteFile(
    url: string, downloadUrl: string, localPath: string, tmpPath: string,
    preChksum: string, compress: bool, timeoutSeconds: int,
    extraHeaders: map<string, string>,
    chksum: string, format: string, name: string)

  const DefaultTimeout: int := 24 * 3600

  /** `NewRemoteFile`: a non-positive timeout means a day, and without a
      temporary path the file is written in place. */
  function NewRemoteFile(url: string, localPath: string, compress: bool, preChksum: string, timeout: int,
                         extraHeaders: map<string, string>, tmpPath: string, downloadUrl: string): (r: RemoteFile)
    ensures r.timeoutSeconds == (if timeout <= 0 then DefaultTimeout else timeout)
    ensures r.timeoutSeconds > 0
    ensures r.tmpPath == (if tmpPath == "" then localPath else tmpPath)
    ensures r.url == url && r.localPath == localPath && r.compress == compress && r.preChksum == preChksum
    ensures r.extraHeaders == extraHeaders && r.downloadUrl == downloadUrl
    ensures r.chksum == "" && r.format == "" && r.name == ""
  {
    RemoteFile(url, downloadUrl, localPath, if |tmpPath| == 0 then localPath else tmpPath,
               preChksum, compress, if timeout <= 0 then DefaultTimeout else timeout,
               extraHeaders, "", "", "")
  }

  /** `setProperties`: checksum, format and name follow the response
      headers, but an absent or empty header keeps the current value. */
  function SetProperties(f: RemoteFile, headers: map<string, string>): (r: RemoteFile)
    ensures r.chksum == (if "X-Image-Meta-Checksum" in headers && headers["X-Image-Meta-Checksum"] != ""
                         then headers["X-Image-Meta-Checksum"] else f.chksum)
    ensures r.format == (if "X-Image-Meta-Disk_format" in headers && headers["X-Image-Meta-Disk_format"] != ""
                         then headers["X-Image-Meta-Disk_format"] else f.format)
    ensures r.name == (if "X-Image-Meta-Name" in headers && headers["X-Image-Meta-Name"] != ""
                       then headers["X-Image-Meta-Name"] else f.name)
    ensures r == f.(chksum := r.chksum, format := r.format, name := r.name)
  {
    var chk := if "X-Image-Meta-Checksum" in headers then headers["X-Image-Meta-Checksum"] else "";
    var fmt := if "X-Image-Meta-Disk_format" in headers then headers["X-Image-Meta-Disk_format"] else "";
    var nm := if "X-Image-Meta-Name" in headers then headers["X-Image-Meta-Name"] else "";
    f.(chksum := if |chk| > 0 then chk else f.chksum,
       format := if |fmt| > 0 then fmt else f.format,
       name := if |nm| > 0 then nm else f.name)
  }

  /** Setting the properties twice from the same headers is setting them
      once. */
  lemma SetPropertiesIdempotent(f: RemoteFile, headers: map<string, string>)
    ensures SetProperties(SetProperties(f, headers), headers) == SetProperties(f, headers)
  {
  }

  // ------------------------------------------------------------- requests

  datatype Method = Head | Get

  datatype Request = Request(verb: Method, url: string, headers: map<string, string>)

  /** The headers of one request: the auth token, the expected checksum when
      one is given, the compression flag, and then the extra headers, which
      win over all of these. Header names are taken as already canonical. */
  function RequestHeaders(f: RemoteFile, preChksum: string, token: string): (r: map<string, string>)
    ensures forall k :: k in f.extraHeaders ==> k in r && r[k] == f.extraHeaders[k]
    ensures "X-Auth-Token" in r
    ensures "X-Auth-Token" !in f.extraHeaders ==> r["X-Auth-Token"] == token
    ensures "X-Image-Meta-Checksum" !in f.extraHeaders ==>
              ("X-Image-Meta-Checksum" in r <==> preChksum != "")
              && (preChksum != "" ==> r["X-Image-Meta-Checksum"] == preChksum)
    ensures "X-Compress-Content" !in f.extraHeaders ==>
              ("X-Compress-Content" in r <==> f.compress)
              && (f.compress ==> r["X-Compress-Content"] == "zlib")
    ensures r.Keys <= f.extraHeaders.Keys + {"X-Auth-Token", "X-Image-Meta-Checksum", "X-Compress-Content"}
  {
    var h1 := map["X-Auth-Token" := token];
    var h2 := if |preChksum| > 0 then h1["X-Image-Meta-Checksum" := preChksum] else h1;
    var h3 := if f.compress then h2["X-Compress-Content" := "zlib"] else h2;
    h3 + f.extraHeaders
  }

  /** The request `downloadInternal` sends. */
  function RequestOf(f: RemoteFile, getData: bool, preChksum: string, token: string): (r: Request)
    ensures r.verb == Get <==> getData
    ensures r.url == (if f.downloadUrl != "" then f.downloadUrl else f.url)
    ensures r.headers == RequestHeaders(f, preChksum, token)
  {
    Request(if getData then Get else Head, if |f.downloadUrl| > 0 then f.downloadUrl else f.url,
            RequestHeaders(f, preChksum, token))
  }

  /** How writing a response body to the temporary file went: written
      whole, the file could not be created, or the copy stopped part way
      (a broken stream or a bad compressed stream) leaving what was
      written. */
  datatype BodyWrite = Written(content: Blob) | CreateFailed | CopyFailed(partial: Blob)

  /** The reply to one request: no response, or a status with headers and
      (for a data request) the body as written to disk. */
  datatype Reply = NoResponse(msg: string) | Response(status: int, headers: map<string, string>, body: BodyWrite)

  /** The world the downloads run in: the files on disk, the replies to
      come (the n-th request gets `net(n)`), and the requests made. */
  datatype World = World(fs: map<string, Blob>, net: nat -> Reply, calls: nat, sent: seq<Request>)

  /** Two file systems that differ at most at `path`. */
  ghost predicate SameExcept(a: map<string, Blob>, b: map<string, Blob>, path: string)
  {
    forall p :: p != path ==> (p in a <==> p in b) && (p in a ==> a[p] == b[p])
  }

  lemma SameExceptTrans(a: map<string, Blob>, b: map<string, Blob>, c: map<string, Blob>, path: string)
    requires SameExcept(a, b, path) && SameExcept(b, c, path)
    ensures SameExcept(a, c, path)
  {
  }

  datatype Step = Step(file: RemoteFile, world: World, outcome: Outcome<string>)

  /** `downloadInternal`: one request. A status below 300 succeeds (with a
      data request, once the body is in the temporary file), 304 succeeds
      and drops the temporary file, anything else fails. */
  function DownloadInternal(f: RemoteFile, w: World, getData: bool, preChksum: string, token: string): (r: Step)
    ensures r.world.calls == w.calls + 1 && r.world.net == w.net
    ensures r.world.sent == w.sent + [RequestOf(f, getData, preChksum, token)]
    ensures r.outcome.Pass? <==>
              w.net(w.calls).Response? &&
              ((w.net(w.calls).status < 300 && (getData ==> w.net(w.calls).body.Written?))
               || w.net(w.calls).status == 304)
    ensures r.outcome.Pass? && w.net(w.calls).status < 300 ==> r.file == SetProperties(f, w.net(w.calls).headers)
    ensures !(r.outcome.Pass? && w.net(w.calls).status < 300) ==> r.file == f
    ensures getData && r.outcome.Pass? && w.net(w.calls).status < 300 ==>
              r.world.fs == w.fs[f.tmpPath := w.net(w.calls).body.content]
    ensures r.outcome.Pass? && w.net(w.calls).status == 304 ==> r.world.fs == w.fs - {f.tmpPath}
    ensures !getData ==> r.world.fs == w.fs || r.world.fs == w.fs - {f.tmpPath}
    ensures SameExcept(w.fs, r.world.fs, f.tmpPath)
  {
    var req := RequestOf(f, getData, preChksum, token);
    var w' := w.(calls := w.calls + 1, sent := w.sent + [req]);
    match w.net(w.calls)
    case NoResponse(msg) => Step(f, w', Fail("request: " + msg))
    case Response(status, headers, body) =>
      if status < 300 then
        if getData then
          match body
          case CreateFailed => Step(f, w'.(fs := w.fs - {f.tmpPath}), Fail("os.Create(" + f.tmpPath + ")"))
          case CopyFailed(partial) => Step(f, w'.(fs := w.fs[f.tmpPath := partial]), Fail("io.Copy to tmpPath " + f.tmpPath))
          case Written(content) => Step(SetProperties(f, headers), w'.(fs := w.fs[f.tmpPath := content]), Pass)
        else Step(SetProperties(f, headers), w', Pass)
      else if status == 304 then Step(f, w'.(fs := w.fs - {f.tmpPath}), Pass)
      else Step(f, w', Fail("Remote file fetch error"))
  }

  /** One attempt of `download`: for data, a header request first (its
      failure only logged), then the real request. */
  function Attempt(f: RemoteFile, w: World, getData: bool, preChksum: string, token: string): (r: Step)
    ensures r.world.net == w.net
    ensures w.calls + 1 <= r.world.calls <= w.calls + 2
    ensures |r.world.sent| > |w.sent|
    ensures r.outcome.Fail? ==> r.file == (if getData then DownloadInternal(f, w, false, preChksum, token).file else f)
    ensures r.outcome.Fail? ==> r.world.sent[|r.world.sent| - 1] == RequestOf(r.file, getData, preChksum, token)
    ensures r.file == f.(chksum := r.file.chksum, format := r.file.format, name := r.file.name)
    ensures SameExcept(w.fs, r.world.fs, f.tmpPath)
    ensures !getData ==> forall i :: |w.sent| <= i < |r.world.sent| ==> r.world.sent[i].verb == Head
  {
    var s1 := if getData then DownloadInternal(f, w, false, preChksum, token) else Step(f, w, Pass);
    DownloadInternal(s1.file, s1.world, getData, preChksum, token)
  }

  /** `download`: an attempt against the cached URL; on failure the cached
      URL is dropped for good and the attempt is made once more against
      the direct URL. */
  function Download(f: RemoteFile, w: World, getData: bool, preChksum: string, token: string): (r: Step)
    ensures r.world.net == w.net
    ensures w.calls + 1 <= r.world.calls <= w.calls + 4
    ensures |r.world.sent| > |w.sent|
    ensures r.outcome.Fail? ==> r.file.downloadUrl == ""
    ensures r.outcome.Fail? ==> r.world.sent[|r.world.sent| - 1] == RequestOf(r.file, getData, preChksum, token)
    ensures r.file.downloadUrl == f.downloadUrl || r.file.downloadUrl == ""
    ensures r.file.url == f.url && r.file.localPath == f.localPath && r.file.tmpPath == f.tmpPath
    ensures r.file.compress == f.compress && r.file.extraHeaders == f.extraHeaders && r.file.preChksum == f.preChksum
    ensures SameExcept(w.fs, r.world.fs, f.tmpPath)
    ensures !getData ==> forall i :: |w.sent| <= i < |r.world.sent| ==> r.world.sent[i].verb == Head
  {
    var s2 := Attempt(f, w, getData, preChksum, token);
    if s2.outcome.Pass? then s2
    else Attempt(s2.file.(downloadUrl := ""), s2.world, getData, preChksum, token)
  }

  /** When the direct retry is made, it goes to `url`. */
  lemma DownloadFallsBackToUrl(f: RemoteFile, w: World, getData: bool, preChksum: string, token: string)
    requires Download(f, w, getData, preChksum, token).outcome.Fail?
    ensures var r := Download(f, w, getData, preChksum, token);
            r.world.sent[|r.world.sent| - 1].url == f.url
  {
  }

  // ---------------------------------------------------------------- fetch

  const MaxDownloads: nat := 3

  /** What a finished fetch did: the file, the world, the outcome, and how
      many downloads it started. */
  datatype Fetched = Fetched(file: RemoteFile, world: World, outcome: Outcome<string>, downloads: nat)


  /** `fetch`'s move into place as written: unlink the local path, then
      rename the temporary file onto it. */
  function CommitAsWritten(fs: map<string, Blob>, tmpPath: string, localPath: string): (r: (map<string, Blob>, Outcome<string>))
    ensures tmpPath != localPath && tmpPath in fs ==> r == ((fs - {localPath} - {tmpPath})[localPath := fs[tmpPath]], Pass)
    ensures tmpPath == localPath ==> r.1.Fail? && r.0 == fs - {localPath}
  {
    var fs' := fs - {localPath};
    if tmpPath in fs' then ((fs' - {tmpPath})[localPath := fs'[tmpPath]], Pass)
    else (fs', Fail("rename " + tmpPath + ": no such file or directory"))
  }

  /** The move into place as intended: the temporary file ends up at the
      local path, and a file downloaded in place stays where it is. */
  function Commit(fs: map<string, Blob>, tmpPath: string, localPath: string): (r: (map<string, Blob>, Outcome<string>))
    requires tmpPath in fs
    ensures r.1.Pass?
    ensures localPath in r.0 && r.0[localPath] == fs[tmpPath]
    ensures tmpPath != localPath ==> tmpPath !in r.0
    ensures forall p :: p != tmpPath && p != localPath ==> (p in r.0 <==> p in fs) && (p in fs ==> r.0[p] == fs[p])
  {
    if tmpPath == localPath then (fs, Pass)
    else ((fs - {tmpPath})[localPath := fs[tmpPath]], Pass)
  }

  /** The two agree whenever the paths differ; when the file was
      downloaded in place (the constructor's default), the code as written
      deletes the download itself and then fails the rename. */
  lemma CommitAsWrittenDiffers(fs: map<string, Blob>, tmpPath: string, localPath: string)
    requires tmpPath in fs
    ensures tmpPath != localPath ==> CommitAsWritten(fs, tmpPath, localPath) == Commit(fs, tmpPath, localPath)
    ensures tmpPath == localPath ==> CommitAsWritten(fs, tmpPath, localPath).1.Fail?
                                     && localPath !in CommitAsWritten(fs, tmpPath, localPath).0
                                     && Commit(fs, tmpPath, localPath).1.Pass?
  {
    if tmpPath != localPath {
      var fs' := fs - {localPath};
      assert (fs' - {tmpPath})[localPath := fs'[tmpPath]] == (fs - {tmpPath})[localPath := fs[tmpPath]];
    }
  }

  /** The collaborators of a fetch: the auth token and MD5. */
  datatype Env = Env(token: string, md5: Blob -> string)

  /** After a successful download: when a checksum is known and the
      temporary file is there, it must match before the file is moved into
      place; otherwise there is nothing more to do. */
  function CheckAndCommit(f: RemoteFile, w: World, env: Env): (r: (World, Outcome<string>))
    ensures f.chksum != "" && f.tmpPath in w.fs && env.md5(w.fs[f.tmpPath]) != f.chksum
            ==> r.0 == w && r.1.Fail?
    ensures f.chksum != "" && f.tmpPath in w.fs && env.md5(w.fs[f.tmpPath]) == f.chksum
            ==> r == (w.(fs := Commit(w.fs, f.tmpPath, f.localPath).0), Pass)
    ensures !(f.chksum != "" && f.tmpPath in w.fs) ==> r == (w, Pass)
  {
    if |f.chksum| > 0 && f.tmpPath in w.fs then
      var local := env.md5(w.fs[f.tmpPath]);
      if f.chksum != local then (w, Fail("remote checksum " + f.chksum + " != local checksum " + local))
      else (w.(fs := Commit(w.fs, f.tmpPath, f.localPath).0), Pass)
    else (w, Pass)
  }

  /** The retry loop of `fetch` from attempt `i` on. */
  function FetchFrom(f: RemoteFile, w: World, preChksum: string, env: Env, i: nat, lastErr: string): (r: Fetched)
    requires i <= MaxDownloads
    ensures i + r.downloads <= MaxDownloads
    ensures i < MaxDownloads ==> r.downloads >= 1
    ensures r.world.net == w.net
    ensures r.world.calls <= w.calls + 4 * r.downloads
    ensures r.file.tmpPath == f.tmpPath && r.file.localPath == f.localPath
    ensures r.outcome.Fail? ==> SameExcept(w.fs, r.world.fs, f.tmpPath)
    decreases MaxDownloads - i
  {
    if i == MaxDownloads then Fetched(f, w, Fail("download: " + lastErr), 0)
    else
      var d := Download(f, w, true, preChksum, env.token);
      match d.outcome
      case Pass =>
        var c := CheckAndCommit(d.file, d.world, env);
        Fetched(d.file, c.0, c.1, 1)
      case Fail(e) =>
        var rest := FetchFrom(d.file, d.world, preChksum, env, i + 1, e);
        if rest.outcome.Fail? then
          SameExceptTrans(w.fs, d.world.fs, rest.world.fs, f.tmpPath);
          rest.(downloads := rest.downloads + 1)
        else rest.(downloads := rest.downloads + 1)
  }

  /** `fetch`: at most three downloads, stopping at the first that
      succeeds, which then decides through the checksum rule; when all
      three fail, the last failure is reported. */
  function Fetch1(f: RemoteFile, w: World, preChksum: string, env: Env): (r: Fetched)
    ensures 1 <= r.downloads <= MaxDownloads
    ensures r.world.net == w.net
    ensures r.world.calls <= w.calls + 4 * MaxDownloads
    ensures r.outcome.Fail? ==> SameExcept(w.fs, r.world.fs, f.tmpPath)
  {
    FetchFrom(f, w, preChksum, env, 0, "")
  }

  /** A first download that succeeds ends the fetch: one download, and the
      outcome is the checksum rule's. */
  lemma FetchStopsAtFirstSuccess(f: RemoteFile, w: World, preChksum: string, env: Env)
    requires Download(f, w, true, preChksum, env.token).outcome.Pass?
    ensures var d := Download(f, w, true, preChksum, env.token);
            var r := Fetch1(f, w, preChksum, env);
            r.downloads == 1 && (r.world, r.outcome) == CheckAndCommit(d.file, d.world, env)
  {
  }

  /** Whichever attempt it is, a download that succeeds ends the loop: it
      is the last download, and the checksum rule decides the outcome. */
  lemma FetchFromStopsAtSuccess(f: RemoteFile, w: World, preChksum: string, env: Env, i: nat, lastErr: string)
    requires i < MaxDownloads
    requires Download(f, w, true, preChksum, env.token).outcome.Pass?
    ensures var d := Download(f, w, true, preChksum, env.token);
            var r := FetchFrom(f, w, preChksum, env, i, lastErr);
            r.downloads == 1 && r.file == d.file && (r.world, r.outcome) == CheckAndCommit(d.file, d.world, env)
  {
  }

  /** With a separate temporary path, a fetch that fails leaves the local
      file exactly as it was: every write goes to the temporary path. */
  lemma FailedFetchKeepsLocalFile(f: RemoteFile, w: World, preChksum: string, env: Env)
    requires f.tmpPath != f.localPath
    requires Fetch1(f, w, preChksum, env).outcome.Fail?
    ensures var r := Fetch1(f, w, preChksum, env);
            (f.localPath in r.world.fs <==> f.localPath in w.fs)
            && (f.localPath in w.fs ==> r.world.fs[f.localPath] == w.fs[f.localPath])
  {
  }

  /** A fetch that succeeds only on its third download had two failed
      downloads before it. */
  lemma FetchFailsAfterThree(f: RemoteFile, w: World, preChksum: string, env: Env)
    requires Fetch1(f, w, preChksum, env).downloads == MaxDownloads
    requires Fetch1(f, w, preChksum, env).outcome.Pass?
    ensures var d1 := Download(f, w, true, preChksum, env.token);
            var d2 := Download(d1.file, d1.world, true, preChksum, env.token);
            d1.outcome.Fail? && d2.outcome.Fail?
  {
  }

  /** Three failed downloads fail the fetch, reporting the last failure. */
  lemma ThreeFailuresFailFetch(f: RemoteFile, w: World, preChksum: string, env: Env)
    requires var d1 := Download(f, w, true, preChksum, env.token);
             var d2 := Download(d1.file, d1.world, true, preChksum, env.token);
             var d3 := Download(d2.file, d2.world, true, preChksum, env.token);
             d1.outcome.Fail? && d2.outcome.Fail? && d3.outcome.Fail?
    ensures var d1 := Download(f, w, true, preChksum, env.token);
            var d2 := Download(d1.file, d1.world, true, preChksum, env.token);
            var d3 := Download(d2.file, d2.world, true, preChksum, env.token);
            var r := Fetch1(f, w, preChksum, env);
            r.downloads == MaxDownloads && r.outcome == Fail("download: " + d3.outcome.error)
            && r.world == d3.world
  {
  }

  // ---------------------------------------------------------- entry point

  /** `VerifyIntegrity`: a local file whose MD5 matches the expected
      checksum is kept; otherwise a header request refreshes the remote
      checksum, and a mismatch (or a failed request) refetches. An absent
      local file cannot be hashed and is an error. */
  function VerifyIntegrity(f: RemoteFile, w: World, env: Env): (r: Fetched)
    ensures f.localPath !in w.fs ==> r.outcome.Fail? && r.downloads == 0 && r.world == w
    ensures f.localPath in w.fs && f.preChksum != "" && env.md5(w.fs[f.localPath]) == f.preChksum
            ==> r == Fetched(f, w, Pass, 0)
    ensures r.downloads <= 1 + MaxDownloads
    ensures f.localPath in w.fs && !(f.preChksum != "" && env.md5(w.fs[f.localPath]) == f.preChksum) ==>
              var h := Download(f, w, false, "", env.token);
              (h.outcome.Pass? && h.file.chksum == env.md5(w.fs[f.localPath]) ==>
                 r == Fetched(h.file, h.world, Pass, 1) && SameExcept(w.fs, r.world.fs, f.tmpPath))
              && (!(h.outcome.Pass? && h.file.chksum == env.md5(w.fs[f.localPath])) ==>
                 r.downloads >= 2 && r == Fetch1(h.file, h.world, "", env).(downloads := r.downloads))
  {
    if f.localPath !in w.fs then Fetched(f, w, Fail("fileutils2.MD5(" + f.localPath + ")"), 0)
    else
      var local := env.md5(w.fs[f.localPath]);
      if f.preChksum != "" && local == f.preChksum then Fetched(f, w, Pass, 0)
      else
        var h := Download(f, w, false, "", env.token);
        if h.outcome.Pass? && local == h.file.chksum then Fetched(h.file, h.world, Pass, 1)
        else
          var r := Fetch1(h.file, h.world, "", env);
          r.(downloads := r.downloads + 1)
  }

  /** `Fetch`: with an expected checksum, fetch against it; otherwise keep
      a local file that checks out, refetching when it does not (a second
      fetch when the check's own refetch failed); with no local file,
      fetch. */
  function Fetch(f: RemoteFile, w: World, env: Env): (r: Fetched)
    ensures f.preChksum != "" ==> r == Fetch1(f, w, f.preChksum, env)
    ensures f.preChksum == "" && f.localPath !in w.fs ==> r == Fetch1(f, w, "", env)
    ensures r.downloads <= 1 + 2 * MaxDownloads
    ensures f.preChksum == "" && f.localPath in w.fs ==>
              var v := VerifyIntegrity(f, w, env);
              (v.outcome.Pass? ==> r == v)
              && (v.outcome.Fail? ==> r.downloads > v.downloads
                                      && r == Fetch1(v.file, v.world, "", env).(downloads := r.downloads))
  {
    if |f.preChksum| > 0 then Fetch1(f, w, f.preChksum, env)
    else if f.localPath in w.fs then
      var v := VerifyIntegrity(f, w, env);
      if v.outcome.Pass? then v
      else
        var r := Fetch1(v.file, v.world, "", env);
        r.(downloads := r.downloads + v.downloads)
    else Fetch1(f, w, "", env)
  }

  /** A local file that the header request vouches for is kept: one
      download, and a header-only one, and with a separate temporary path
      the local file is untouched. */
  lemma FetchKeepsVerifiedLocalFile(f: RemoteFile, w: World, env: Env)
    requires f.preChksum == "" && f.localPath in w.fs
    requires Download(f, w, false, "", env.token).outcome.Pass?
    requires Download(f, w, false, "", env.token).file.chksum == env.md5(w.fs[f.localPath])
    ensures var r := Fetch(f, w, env);
            r.outcome.Pass? && r.downloads == 1
            && (forall i :: |w.sent| <= i < |r.world.sent| ==> r.world.sent[i].verb == Head)
            && (f.tmpPath != f.localPath ==> f.localPath in r.world.fs && r.world.fs[f.localPath] == w.fs[f.localPath])
  {
  }
}
