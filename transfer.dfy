/** The request pattern every file operation of ConvertApi and MiscApi
    repeats (stirling_pdf_client/convert.py, stirling_pdf_client/misc.py):
    open the optional input file, send one POST, save the response with
    `save_file`, then close the file. An exception from `save_file` leaves the
    file open. Also the loops that open and close a list of files. */
module Transfer {
  import opened Common
  import opened Http
  import opened Disk

  /** `file = open(file_input, "rb") if file_input else None`. */
  function OpenOptional(st: FsState, fileInput: Option<Path>): (FsState, Result<Upload>)
  {
    match fileInput
    case None => (st, Ok(NoFile))
    case Some(p) =>
      var (st1, r) := OpenSpec(st, p);
      match r
      case Err(e) => (st1, Err(e))
      case Ok(h) => (st1, Ok(One(h)))
  }

  /** Opening a given input takes the next token; no input opens nothing. */
  lemma OpenOptionalShape(st: FsState, fileInput: Option<Path>)
    requires OpenOptional(st, fileInput).1.Ok?
    ensures var (st1, u) := OpenOptional(st, fileInput);
            match fileInput
            case None => st1 == st && u.value == NoFile
            case Some(p) => st1.openIds == st.openIds + {st.nextId} && st1.nextId == st.nextId + 1
                            && u.value == One(Handle(st.nextId, p))
  {
  }

  /** Closing the input after opening it gives back the open set the call
      started with. */
  lemma CloseOptionalAfterOpen(st: FsState, fileInput: Option<Path>)
    requires WellFormed(st) && OpenOptional(st, fileInput).1.Ok?
    ensures var (st1, u) := OpenOptional(st, fileInput);
            WellFormed(st1) && CloseOptional(st1, u.value).openIds == st.openIds
  {
    OpenOptionalShape(st, fileInput);
    if fileInput.Some? {
      OpenKeepsWellFormed(st, fileInput.value);
    }
  }

  /** `if file: file.close()`. */
  function CloseOptional(st: FsState, u: Upload): FsState
  {
    match u
    case One(h) => CloseSpec(st, h)
    case _ => st
  }

  function SingleRequest(url: string, data: map<string, Value>, u: Upload): Request
  {
    Request("POST", url, map[], data, FileMap(map["fileInput" := u]))
  }

  /** The second half of the pattern, once the input file is open and the
      form is built: send, save the response, then close the input file. */
  function SendSaveClose(st: FsState, sent: seq<Request>, server: Request -> Response, url: string,
                         upload: Upload, data: map<string, Value>, outPath: Path)
    : (FsState, seq<Request>, Result<Response>)
  {
    var req := SingleRequest(url, data, upload);
    var resp := server(req);
    var (st1, o) := SaveSpec(st, resp, outPath);
    match o
    case Fail(e) => (st1, sent + [req], Err(e))
    case Pass => (CloseOptional(st1, upload), sent + [req], Ok(resp))
  }

  /** The whole pattern on the filesystem and the request log: the new
      filesystem, the new log, and the response or the exception raised. */
  function SingleExchange(st: FsState, sent: seq<Request>, server: Request -> Response,
                          url: string, fileInput: Option<Path>, data: map<string, Value>,
                          outPath: Path): (FsState, seq<Request>, Result<Response>)
  {
    var (st1, u) := OpenOptional(st, fileInput);
    match u
    case Err(e) => (st1, sent, Err(e))
    case Ok(upload) => SendSaveClose(st1, sent, server, url, upload, data, outPath)
  }

  /** `file = open(file_input, "rb") if file_input else None`, as run. */
  method OpenInput(fs: FileSystem, fileInput: Option<Path>) returns (r: Result<Upload>)
    modifies fs`openIds, fs`nextId
    ensures (fs.State(), r) == OpenOptional(old(fs.State()), fileInput)
  {
    r := Ok(NoFile);
    if fileInput.Some? {
      var got := fs.Open(fileInput.value);
      if got.Err? {
        return Err(got.error);
      }
      r := Ok(One(got.value));
    }
  }

  /** The second half of the pattern, as run. */
  method Finish(client: HttpClient, fs: FileSystem, url: string, upload: Upload,
                data: map<string, Value>, outPath: Path) returns (r: Result<Response>)
    modifies client`sent, fs
    ensures (fs.State(), client.sent, r)
            == SendSaveClose(old(fs.State()), old(client.sent), client.server, url, upload, data, outPath)
  {
    var resp := client.Send(SingleRequest(url, data, upload));
    var saved := SaveFile(fs, resp, outPath);
    if saved.Fail? {
      return Err(saved.error);
    }
    if upload.One? {
      fs.Close(upload.h);
    }
    r := Ok(resp);
  }

  /** The pattern as the operations run it. */
  method SendSingle(client: HttpClient, fs: FileSystem, url: string, fileInput: Option<Path>,
                    data: map<string, Value>, outPath: Path) returns (r: Result<Response>)
    modifies client`sent, fs
    ensures (fs.State(), client.sent, r)
            == SingleExchange(old(fs.State()), old(client.sent), client.server, url, fileInput, data, outPath)
  {
    var u := OpenInput(fs, fileInput);
    if u.Err? {
      return Err(u.error);
    }
    r := Finish(client, fs, url, u.value, data, outPath);
  }

  /** A completed second half closes the input file and opens nothing. */
  lemma SendSaveCloseOpenIds(st: FsState, sent: seq<Request>, server: Request -> Response, url: string,
                             upload: Upload, data: map<string, Value>, outPath: Path)
    requires SendSaveClose(st, sent, server, url, upload, data, outPath).2.Ok?
    ensures SendSaveClose(st, sent, server, url, upload, data, outPath).0.openIds
            == if upload.One? then st.openIds - {upload.h.id} else st.openIds
  {
  }

  /** Without an input file the request still goes out, with the file
      entry None. */
  lemma NoInputStillSends(st: FsState, sent: seq<Request>, server: Request -> Response,
                          url: string, data: map<string, Value>, outPath: Path)
    ensures var sent' := SingleExchange(st, sent, server, url, None, data, outPath).1;
            sent' == sent + [SingleRequest(url, data, NoFile)]
  {
  }

  /** The pattern behind the argument checks an operation makes first: a
      failed check raises before any file is opened or any request sent. */
  function GuardedExchange(check: Outcome, st: FsState, sent: seq<Request>, server: Request -> Response,
                           url: string, fileInput: Option<Path>, data: map<string, Value>,
                           outPath: Path): (FsState, seq<Request>, Result<Response>)
  {
    match check
    case Fail(e) => (st, sent, Err(e))
    case Pass => SingleExchange(st, sent, server, url, fileInput, data, outPath)
  }

  /** The check `if file_input is None and file_id is None: raise ValueError(msg)`. */
  function OneOf(fileInput: Option<Path>, fileId: Option<string>, msg: string): (o: Outcome)
    ensures o.Fail? <==> fileInput.None? && fileId.None?
    ensures o.Fail? ==> o.error == ValueError(msg)
  {
    if fileInput.None? && fileId.None? then Fail(ValueError(msg)) else Pass
  }

  /** `return resp.status_code` after the pattern. */
  function StatusOf(r: Result<Response>): Result<int>
  {
    match r
    case Err(e) => Err(e)
    case Ok(resp) => Ok(resp.status)
  }

  /** `return resp.text` after the pattern. */
  function TextOf(r: Result<Response>): Result<string>
  {
    match r
    case Err(e) => Err(e)
    case Ok(resp) => Ok(resp.text)
  }

  /** A failed check leaves filesystem and request log as they were. */
  lemma RefusedSendsNothing(e: Error, st: FsState, sent: seq<Request>, server: Request -> Response,
                            url: string, fileInput: Option<Path>, data: map<string, Value>, outPath: Path)
    ensures GuardedExchange(Fail(e), st, sent, server, url, fileInput, data, outPath) == (st, sent, Err(e))
  {
  }

  // ---------------------------------------------------------------------------
  // Lists of files

  /** Opening the paths one after the other; the first failure stops the loop
      and leaves the files opened before it open. */
  function OpenAll(st: FsState, paths: seq<Path>): (FsState, Result<seq<Handle>>)
  {
    if paths == [] then (st, Ok([]))
    else
      var (st1, r1) := OpenAll(st, paths[..|paths| - 1]);
      match r1
      case Err(e) => (st1, Err(e))
      case Ok(hs) =>
        var (st2, r2) := OpenSpec(st1, paths[|paths| - 1]);
        match r2
        case Err(e) => (st2, Err(e))
        case Ok(h) => (st2, Ok(hs + [h]))
  }

  /** Closing every handle of a list, first to last. */
  function CloseAll(st: FsState, hs: seq<Handle>): FsState
  {
    if hs == [] then st else CloseSpec(CloseAll(st, hs[..|hs| - 1]), hs[|hs| - 1])
  }

  /** The ids `start`, `start + 1`, ..., `start + n - 1`. */
  function IdRange(start: nat, n: nat): (ids: set<nat>)
    ensures forall id :: id in ids <==> start <= id < start + n
  {
    if n == 0 then {} else IdRange(start, n - 1) + {start + n - 1}
  }

  function Ids(hs: seq<Handle>): set<nat>
  {
    set h | h in hs :: h.id
  }

  /** `for p in paths: opened.append(open(p, "rb"))`. */
  method OpenEach(fs: FileSystem, paths: seq<Path>) returns (r: Result<seq<Handle>>)
    modifies fs`openIds, fs`nextId
    ensures (fs.State(), r) == OpenAll(old(fs.State()), paths)
  {
    var hs: seq<Handle> := [];
    for i := 0 to |paths|
      invariant OpenAll(old(fs.State()), paths[..i]) == (fs.State(), Ok(hs))
    {
      assert paths[..i + 1][..i] == paths[..i];
      var got := fs.Open(paths[i]);
      if got.Err? {
        OpenAllStopsAtFailure(old(fs.State()), paths, i + 1);
        return Err(got.error);
      }
      hs := hs + [got.value];
    }
    assert paths[..|paths|] == paths;
    r := Ok(hs);
  }

  /** `for f in got: if not f.closed: f.close()`. */
  method CloseEach(fs: FileSystem, hs: seq<Handle>)
    modifies fs`openIds
    ensures fs.State() == CloseAll(old(fs.State()), hs)
  {
    for i := 0 to |hs|
      invariant fs.State() == CloseAll(old(fs.State()), hs[..i])
    {
      assert hs[..i + 1][..i] == hs[..i];
      if !fs.IsClosed(hs[i]) {
        fs.Close(hs[i]);
      }
    }
    assert hs[..|hs|] == hs;
  }

  /** Once opening fails, opening more paths after it changes nothing. */
  lemma {:induction false} OpenAllStopsAtFailure(st: FsState, paths: seq<Path>, k: nat)
    requires k <= |paths| && OpenAll(st, paths[..k]).1.Err?
    ensures OpenAll(st, paths) == OpenAll(st, paths[..k])
    decreases |paths| - k
  {
    if k < |paths| {
      var longer := paths[..k + 1];
      assert longer[..k] == paths[..k];
      OpenAllStopsAtFailure(st, paths, k + 1);
    } else {
      assert paths[..k] == paths;
    }
  }

  /** A successful open of every path gives one handle per path, in order, with
      consecutive newIds ids; files and directories are untouched. */
  lemma {:induction false} OpenAllHandles(st: FsState, paths: seq<Path>)
    requires OpenAll(st, paths).1.Ok?
    ensures var (st', r) := OpenAll(st, paths);
            |r.value| == |paths|
            && (forall i :: 0 <= i < |paths| ==> r.value[i] == Handle(st.nextId + i, paths[i]))
            && st'.nextId == st.nextId + |paths|
            && st'.openIds == st.openIds + IdRange(st.nextId, |paths|)
            && st'.files == st.files && st'.dirs == st.dirs
  {
    if paths != [] {
      var init := paths[..|paths| - 1];
      OpenAllHandles(st, init);
      var (st1, r1) := OpenAll(st, init);
      assert IdRange(st.nextId, |paths|) == IdRange(st.nextId, |init|) + {st.nextId + |init|};
    }
  }

  /** Closing every handle that OpenAll gave back restores the open set of
      before the loop: no file object of the list stays open. */
  lemma {:induction false} CloseAllAfterOpenAll(st: FsState, paths: seq<Path>)
    requires WellFormed(st) && OpenAll(st, paths).1.Ok?
    ensures var (st', r) := OpenAll(st, paths);
            CloseAll(st', r.value).openIds == st.openIds
  {
    var (st', r) := OpenAll(st, paths);
    OpenAllHandles(st, paths);
    ClosesRemoveIds(st', r.value);
    var newIds := IdRange(st.nextId, |paths|);
    assert newIds == Ids(r.value) by {
      forall x | x in newIds ensures x in Ids(r.value) {
        assert r.value[x - st.nextId].id == x;
      }
    }
    assert forall x :: x in newIds ==> x !in st.openIds;
  }

  /** CloseAll removes exactly the ids of the handles and changes nothing else. */
  lemma {:induction false} ClosesRemoveIds(st: FsState, hs: seq<Handle>)
    ensures CloseAll(st, hs) == st.(openIds := st.openIds - Ids(hs))
  {
    if hs != [] {
      var init := hs[..|hs| - 1];
      ClosesRemoveIds(st, init);
      assert Ids(hs) == Ids(init) + {hs[|hs| - 1].id} by {
        forall x | x in Ids(hs) ensures x in Ids(init) + {hs[|hs| - 1].id} {
          var h :| h in hs && x == h.id;
          var j :| 0 <= j < |hs| && hs[j] == h;
          if j < |init| { assert init[j] == h; }
        }
      }
    }
  }

  // ---------------------------------------------------------------------------
  // Properties of the single-file pattern

  /** A call that succeeds sends exactly one request, carrying the data and
      exactly one `fileInput` entry (no file exactly when no path was given),
      and returns the server's response to it. */
  lemma SingleSendsOne(st: FsState, sent: seq<Request>, server: Request -> Response,
                       url: string, fileInput: Option<Path>, data: map<string, Value>, outPath: Path)
    requires SingleExchange(st, sent, server, url, fileInput, data, outPath).2.Ok?
    ensures var (_, sent', r) := SingleExchange(st, sent, server, url, fileInput, data, outPath);
            |sent'| == |sent| + 1 && sent'[..|sent|] == sent
            && sent'[|sent|].data == data && sent'[|sent|].files.FileMap?
            && sent'[|sent|].files.entries.Keys == {"fileInput"}
            && (fileInput.None? <==> sent'[|sent|].files.entries["fileInput"] == NoFile)
            && r.value == server(sent'[|sent|])
  {
    var (st1, u) := OpenOptional(st, fileInput);
    var req := SingleRequest(url, data, u.value);
    assert SingleExchange(st, sent, server, url, fileInput, data, outPath).1 == sent + [req];
    assert (sent + [req])[..|sent|] == sent;
    assert req.files.entries.Keys == {"fileInput"};
  }

  /** A call that succeeds leaves no file open and writes exactly the response
      body to the save target, and nothing else. */
  lemma SingleLeavesNoFileOpen(st: FsState, sent: seq<Request>, server: Request -> Response,
                               url: string, fileInput: Option<Path>, data: map<string, Value>, outPath: Path)
    requires WellFormed(st)
    requires SingleExchange(st, sent, server, url, fileInput, data, outPath).2.Ok?
    ensures var (st', _, r) := SingleExchange(st, sent, server, url, fileInput, data, outPath);
            st'.openIds == st.openIds
            && st'.files == st.files[SaveTarget(st, outPath, r.value.headers) := r.value.content]
  {
    var (st1, u) := OpenOptional(st, fileInput);
    var resp := server(SingleRequest(url, data, u.value));
    var (st2, o) := SaveSpec(st1, resp, outPath);
    assert st1.files == st.files;
    assert SaveTarget(st1, outPath, resp.headers) == SaveTarget(st, outPath, resp.headers);
    if fileInput.Some? {
      CloseUndoesOpen(st, fileInput.value);
    }
  }

  /** When the input file is missing nothing is sent and nothing changes. */
  lemma MissingInputSendsNothing(st: FsState, sent: seq<Request>, server: Request -> Response,
                                 url: string, p: Path, data: map<string, Value>, outPath: Path)
    requires p !in st.files
    ensures SingleExchange(st, sent, server, url, Some(p), data, outPath) == (st, sent, Err(FileError(p)))
  {
  }

  /** When saving fails after the request the input file stays open. */
  lemma SaveFailureLeaksHandle(st: FsState, sent: seq<Request>, server: Request -> Response,
                               url: string, p: Path, data: map<string, Value>, outPath: Path)
    requires WellFormed(st) && p in st.files
    requires SingleExchange(st, sent, server, url, Some(p), data, outPath).2.Err?
    ensures st.nextId in SingleExchange(st, sent, server, url, Some(p), data, outPath).0.openIds
    ensures st.nextId !in st.openIds
  {
  }
}
