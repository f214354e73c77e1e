/** The filesystem as the client uses it, and `save_file`
    (stirling_pdf_client/utils.py): a map from paths to bytes, a set of
    directories, and the ids of the file objects that are still open. */
module Disk {
  import opened Common
  import opened Filename
  import opened Http

  datatype FsState = FsState(
    files: map<Path, Bytes>,
    dirs: set<Path>,
    openIds: set<nat>,
    nextId: nat)

  function Parent(p: Path): Path
    requires p != []
  {
    p[..|p| - 1]
  }

  /** The root is a directory, every regular file sits in a directory and is
      not one itself, and every open id has been handed out. */
  predicate WellFormed(st: FsState)
  {
    [] in st.dirs
    && (forall p :: p in st.files ==> p != [] && p !in st.dirs && Parent(p) in st.dirs && p[|p| - 1] != "..")
    && (forall id :: id in st.openIds ==> id < st.nextId)
  }

  /** `Path.joinpath(name)` for a name without separators: an empty name or `.`
      leaves the path as it is. */
  function Join(dir: Path, name: string): (p: Path)
    ensures name == "" || name == "." ==> p == dir
    ensures name != "" && name != "." ==> p == dir + [name]
  {
    if name == "" || name == "." then dir else dir + [name]
  }

  // ---------------------------------------------------------------------------
  // open / close / write as state transformers

  /** `open(p, "rb")`: a new file object for an existing regular file. */
  function OpenSpec(st: FsState, p: Path): (FsState, Result<Handle>)
  {
    if p in st.files then
      (st.(openIds := st.openIds + {st.nextId}, nextId := st.nextId + 1), Ok(Handle(st.nextId, p)))
    else
      (st, Err(FileError(p)))
  }

  function CloseSpec(st: FsState, h: Handle): FsState
  {
    st.(openIds := st.openIds - {h.id})
  }

  /** `open(p, "wb")` succeeds for a path that is not a directory, whose
      parent is a directory, and whose last component is not `..`. */
  predicate Writable(st: FsState, p: Path)
  {
    p != [] && p !in st.dirs && Parent(p) in st.dirs && p[|p| - 1] != ".."
  }

  /** `open(p, "wb").write(bytes)`: the file is created or replaced. */
  function WriteSpec(st: FsState, p: Path, bytes: Bytes): (FsState, Outcome)
  {
    if Writable(st, p) then (st.(files := st.files[p := bytes]), Pass)
    else (st, Fail(FileError(p)))
  }

  // ---------------------------------------------------------------------------
  // save_file

  /** The file `save_file` writes: `out_path` itself when it is an existing
      regular file, otherwise `out_path` joined with the name from the headers. */
  function SaveTarget(st: FsState, outPath: Path, headers: Headers): Path
  {
    if outPath in st.files then outPath
    else Join(outPath, GetFilename(headers, DEFAULT_FILENAME))
  }

  function SaveSpec(st: FsState, resp: Response, outPath: Path): (FsState, Outcome)
  {
    WriteSpec(st, SaveTarget(st, outPath, resp.headers), resp.content)
  }

  /** The file object states live in a FileSystem whose fields the
      operations update. */
  class FileSystem {
    var files: map<Path, Bytes>
    var dirs: set<Path>
    var openIds: set<nat>
    var nextId: nat

    function State(): FsState
      reads this
    {
      FsState(files, dirs, openIds, nextId)
    }

    predicate Valid()
      reads this
    {
      WellFormed(State())
    }

    constructor (files: map<Path, Bytes>, dirs: set<Path>)
      requires WellFormed(FsState(files, dirs, {}, 0))
      ensures State() == FsState(files, dirs, {}, 0)
      ensures Valid()
    {
      this.files := files;
      this.dirs := dirs;
      openIds := {};
      nextId := 0;
    }

    /** `Path.is_file()`. */
    predicate IsFile(p: Path)
      reads this
    {
      p in files
    }

    method Open(p: Path) returns (r: Result<Handle>)
      modifies this`openIds, this`nextId
      ensures (State(), r) == OpenSpec(old(State()), p)
    {
      if p in files {
        r := Ok(Handle(nextId, p));
        openIds := openIds + {nextId};
        nextId := nextId + 1;
      } else {
        r := Err(FileError(p));
      }
    }

    method Close(h: Handle)
      modifies this`openIds
      ensures State() == CloseSpec(old(State()), h)
    {
      openIds := openIds - {h.id};
    }

    /** `file.closed` for a file object of this filesystem. */
    predicate IsClosed(h: Handle)
      reads this
    {
      h.id !in openIds
    }

    method Write(p: Path, bytes: Bytes) returns (o: Outcome)
      modifies this`files
      ensures (State(), o) == WriteSpec(old(State()), p, bytes)
    {
      if p != [] && p !in dirs && p[..|p| - 1] in dirs && p[|p| - 1] != ".." {
        files := files[p := bytes];
        o := Pass;
      } else {
        o := Fail(FileError(p));
      }
    }
  }

  /** `save_file(resp, out_path)`. The status of the response is not looked at. */
  method SaveFile(fs: FileSystem, resp: Response, outPath: Path) returns (o: Outcome)
    modifies fs`files
    ensures (fs.State(), o) == SaveSpec(old(fs.State()), resp, outPath)
  {
    var target := outPath;
    if !fs.IsFile(outPath) {
      var filename := GetFilename(resp.headers, DEFAULT_FILENAME);
      target := Join(outPath, filename);
    }
    o := fs.Write(target, resp.content);
  }

  // ---------------------------------------------------------------------------
  // Properties

  /** Opening, closing and writing keep the filesystem well formed. */
  lemma OpenKeepsWellFormed(st: FsState, p: Path)
    requires WellFormed(st)
    ensures WellFormed(OpenSpec(st, p).0)
  {
  }

  lemma WriteKeepsWellFormed(st: FsState, p: Path, bytes: Bytes)
    requires WellFormed(st)
    ensures WellFormed(WriteSpec(st, p, bytes).0)
  {
    if Writable(st, p) {
      var st' := WriteSpec(st, p, bytes).0;
      forall q | q in st'.files
        ensures q != [] && q !in st'.dirs && Parent(q) in st'.dirs && q[|q| - 1] != ".."
      {
        if q != p {
          assert q in st.files;
        }
      }
    }
  }

  /** An opened file object has an id that no open object has, and it names
      the path it was opened for; a failed open changes nothing. */
  lemma OpenGivesFreshHandle(st: FsState, p: Path)
    requires WellFormed(st)
    ensures var (st', r) := OpenSpec(st, p);
            (r.Ok? <==> p in st.files)
            && (r.Ok? ==> r.value.path == p && r.value.id !in st.openIds
                          && st'.openIds == st.openIds + {r.value.id} && st'.files == st.files)
            && (r.Err? ==> st' == st && r.error == FileError(p))
  {
  }

  /** Closing a file object opened last gives back the open set before the open. */
  lemma CloseUndoesOpen(st: FsState, p: Path)
    requires WellFormed(st) && p in st.files
    ensures var (st', r) := OpenSpec(st, p);
            CloseSpec(st', r.value).openIds == st.openIds
  {
    var (st', r) := OpenSpec(st, p);
    assert st.nextId !in st.openIds;
  }

  /** `save_file` writes at most one path: the target gets exactly the
      response body and every other path keeps its content. */
  lemma SaveTouchesOnlyTarget(st: FsState, resp: Response, outPath: Path)
    ensures var t := SaveTarget(st, outPath, resp.headers);
            var (st', o) := SaveSpec(st, resp, outPath);
            (o.Pass? ==> t in st'.files && st'.files[t] == resp.content)
            && (forall q :: q != t ==> (q in st'.files <==> q in st.files))
            && (forall q :: q != t && q in st.files ==> st'.files[q] == st.files[q])
            && st'.dirs == st.dirs && st'.openIds == st.openIds
  {
  }

  /** The target is `out_path` when that is an existing file; otherwise it is
      `out_path` itself (an empty or `.` name) or a direct child of `out_path`
      whose name has none of the characters the sanitiser removes. */
  lemma SaveTargetPlacement(st: FsState, outPath: Path, headers: Headers)
    ensures var t := SaveTarget(st, outPath, headers);
            (outPath in st.files ==> t == outPath)
            && (outPath !in st.files ==>
                  t == outPath
                  || (|t| == |outPath| + 1 && t[..|outPath|] == outPath && NoIllegal(t[|outPath|])))
  {
    if outPath !in st.files {
      var name := GetFilename(headers, DEFAULT_FILENAME);
      GetFilenameIsSafe(headers);
      var t := Join(outPath, name);
      if t != outPath {
        assert t[..|outPath|] == outPath;
      }
    }
  }

  /** An existing regular file is always overwritten with the body. */
  lemma ExistingFileOverwritten(st: FsState, resp: Response, outPath: Path)
    requires WellFormed(st) && outPath in st.files
    ensures SaveSpec(st, resp, outPath) == (st.(files := st.files[outPath := resp.content]), Pass)
  {
    assert Writable(st, outPath) by {
      assert Parent(outPath) == outPath[..|outPath| - 1];
      assert outPath[|outPath| - 1] != "..";
    }
  }

  /** Into a directory the body goes to the directory joined with the name from
      the headers; without a Content-Disposition header that is the default name. */
  lemma SaveIntoDirectory(st: FsState, resp: Response, dir: Path)
    requires WellFormed(st) && dir in st.dirs && dir + [DEFAULT_FILENAME] !in st.dirs
    requires HeaderValues(resp.headers, "content-disposition") == []
    ensures SaveSpec(st, resp, dir) == (st.(files := st.files[dir + [DEFAULT_FILENAME] := resp.content]), Pass)
  {
    NoDispositionGivesDefault(resp.headers, DEFAULT_FILENAME);
    DefaultNameIsPlain();
    assert dir !in st.files;
    var t := dir + [DEFAULT_FILENAME];
    assert SaveTarget(st, dir, resp.headers) == Join(dir, DEFAULT_FILENAME) == t;
    assert t[..|t| - 1] == dir;
    assert t[|t| - 1] == DEFAULT_FILENAME;
    assert Writable(st, t);
  }

  /** The status code plays no part: an error response is saved like a success. */
  lemma SaveIgnoresStatus(st: FsState, resp: Response, outPath: Path, status: int)
    ensures SaveSpec(st, resp.(status := status), outPath) == SaveSpec(st, resp, outPath)
  {
  }
}
