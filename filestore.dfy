/** SWTPM_NVRAM_LoadData_File, SWTPM_NVRAM_StoreData_File and
    SWTPM_NVRAM_DeleteName_File over an abstract file system: a map from
    path to contents, plus a journal of the system calls made. Every system
    call may be told to fail; a missing file is reported as ENOENT by the map
    itself. The functions Load, Store and Delete give each operation's
    outcome directly, stopping at the first failure; the class methods
    follow the source's rc/fd threading and are proved equal to them. */
module FileStore {
  import opened NvTypes
  import Names

  type Files = map<string, seq<byte>>

  /** The errno values that matter to the backend. */
  datatype Errno = NoError | ENOENT | EOTHER

  /** One system call, with the path its descriptor refers to. */
  datatype Call =
    | OpenRead(path: string)
    | Fchmod(path: string)
    | Fstat(path: string)
    | Read(path: string)
    | Close(path: string)
    | OpenWrite(path: string)
    | Write(path: string)
    | Fsync(path: string)
    | Rename(from: string, to: string)
    | OpenDir(dir: string)
    | FsyncDir(dir: string)
    | CloseDir(dir: string)
    | Unlink(path: string)
    | Remove(path: string)

  /** Which steps of a load fail: open with an errno other than ENOENT,
      fchmod, fstat, malloc, read (returning fewer bytes than asked), close. */
  datatype LoadFaults = LoadFaults(openFails: bool, fchmodFails: bool, fstatFails: bool,
                                   mallocFails: bool, readShort: bool, closeFails: bool)

  const NO_LOAD_FAULTS := LoadFaults(false, false, false, false, false, false)

  /** Which steps of a store fail. writeStop is Some(k) when write_full gives
      up after k bytes; unlinkFails makes the clean-up leave the file. */
  datatype StoreFaults = StoreFaults(openFails: bool, writeStop: Option<nat>, fsyncFails: bool,
                                     closeFails: bool, renameFails: bool, openDirFails: bool,
                                     fsyncDirFails: bool, closeDirFails: bool, unlinkFails: bool)

  const NO_STORE_FAULTS := StoreFaults(false, None, false, false, false, false, false, false, false)

  /** The byte count write_full returns: at most the length asked for. */
  function Written(f: StoreFaults, len: nat): (w: nat)
    ensures w <= len
    ensures w == len <==> f.writeStop.None? || f.writeStop.value >= len
  {
    match f.writeStop
    case None => len
    case Some(k) => if k < len then k else len
  }

  /** The abstract file system: what each path holds, and every system call
      made so far. */
  datatype Fs = Fs(files: Files, calls: seq<Call>)

  /** Record one more system call. */
  function Log(fs: Fs, c: Call): (r: Fs) {
    fs.(calls := fs.calls + [c])
  }

  /** rc, *data and *length after a load (length is 0 until fstat has
      succeeded), and the file system afterwards. */
  datatype LoadOutcome = LoadOutcome(rc: TpmResult, data: seq<byte>, length: nat, fs: Fs)

  datatype StoreOutcome = StoreOutcome(rc: TpmResult, fs: Fs)

  datatype DeleteOutcome = DeleteOutcome(rc: TpmResult, fs: Fs)

  /** Load: resolve, open (ENOENT means the record does not exist yet), then
      read the open file and close it whatever happened. */
  function Load(fs: Fs, cfg: Config, tpmNumber: uint32, name: string, uri: string, f: LoadFaults): (r: LoadOutcome)
    ensures r.fs.files == fs.files
    ensures r.rc == TpmSuccess ==> |r.data| == r.length
    ensures r.rc == TpmRetry ==> r.data == [] && r.length == 0
  {
    match Names.Resolve(cfg.filenameMax, cfg.version, tpmNumber, name, false, uri)
    case Err(code) => LoadOutcome(code, [], 0, fs)
    case Ok(path) =>
      var reading := Log(fs, OpenRead(path));
      if f.openFails then LoadOutcome(TpmFail, [], 0, reading)
      else if path !in fs.files then LoadOutcome(TpmRetry, [], 0, reading)
      else
        var o := ReadOpen(reading, path, fs.files[path], f);
        LoadOutcome(if f.closeFails then TpmFail else o.rc, o.data, o.length, Log(o.fs, Close(path)))
  }

  /** The steps between open and close. The size fstat reports is stored in
      a uint32_t, so only its low 32 bits are read. */
  function ReadOpen(fs: Fs, path: string, content: seq<byte>, f: LoadFaults): (r: LoadOutcome)
    ensures r.fs.files == fs.files && r.rc != TpmRetry
    ensures r.rc == TpmSuccess ==> r.length == |content| % UINT32_LIMIT && r.data == content[..r.length]
    ensures r.rc == TpmFail ==> r.data == []
  {
    var chmod := Log(fs, Fchmod(path));
    if f.fchmodFails then LoadOutcome(TpmFail, [], 0, chmod)
    else
      var stat := Log(chmod, Fstat(path));
      var len := |content| % UINT32_LIMIT;
      if f.fstatFails then LoadOutcome(TpmFail, [], 0, stat)
      else if len == 0 then LoadOutcome(TpmSuccess, [], 0, stat)
      else if f.mallocFails then LoadOutcome(TpmFail, [], len, stat)
      else if f.readShort then LoadOutcome(TpmFail, [], len, Log(stat, Read(path)))
      else LoadOutcome(TpmSuccess, content[..len], len, Log(stat, Read(path)))
  }

  /** Store: resolve both names, create the scratch file, write it, then
      continue from the written scratch file. */
  function Store(fs: Fs, cfg: Config, data: seq<byte>, tpmNumber: uint32, name: string, uri: string, f: StoreFaults): (r: StoreOutcome)
    ensures r.rc != TpmRetry
    ensures r.rc == TpmSuccess ==> Names.Resolve(cfg.filenameMax, cfg.version, tpmNumber, name, false, uri).Ok?
  {
    match Names.Resolve(cfg.filenameMax, cfg.version, tpmNumber, name, false, uri)
    case Err(code) => StoreOutcome(code, fs)
    case Ok(perm) =>
      match Names.Resolve(cfg.filenameMax, cfg.version, tpmNumber, name, true, uri)
      case Err(code) => StoreOutcome(code, fs)
      case Ok(tmp) =>
        var creating := Log(fs, OpenWrite(tmp));
        if f.openFails then StoreOutcome(TpmFail, creating)
        else
          var written := Log(creating, Write(tmp)).(files := fs.files[tmp := data[..Written(f, |data|)]]);
          StoreWritten(written, data, perm, tmp, uri, f)
  }

  /** From the scratch file holding what write_full wrote: sync it (only
      after a complete write), close it, rename it over the permanent file,
      then sync the directory. Any failure ends in Discard. */
  function StoreWritten(written: Fs, data: seq<byte>, perm: string, tmp: string, uri: string, f: StoreFaults): (r: StoreOutcome)
    ensures r.rc != TpmRetry
    ensures r.rc == TpmSuccess ==> r.fs.files == (written.files - {tmp})[perm := data]
    ensures perm in r.fs.files ==> r.fs.files[perm] == data || (perm in written.files && r.fs.files[perm] == written.files[perm])
  {
    var complete := Written(f, |data|) == |data|;
    var synced := if complete then Log(written, Fsync(tmp)) else written;
    var closed := Log(synced, Close(tmp));
    if !complete || f.fsyncFails || f.closeFails then Discard(closed, tmp, f)
    else
      var renaming := Log(closed, Rename(tmp, perm));
      if f.renameFails then Discard(renaming, tmp, f)
      else
        var renamed := renaming.(files := (renaming.files - {tmp})[perm := data]);
        var dirOpened := Log(renamed, OpenDir(uri));
        if f.openDirFails then Discard(dirOpened, tmp, f)
        else
          var dirClosed := Log(Log(dirOpened, FsyncDir(uri)), CloseDir(uri));
          if f.fsyncDirFails || f.closeDirFails then Discard(dirClosed, tmp, f)
          else StoreOutcome(TpmSuccess, dirClosed)
  }

  /** A failed store whose scratch file was opened: unlink it, ignoring the
      result (it is already gone after a successful rename). */
  function Discard(fs: Fs, tmp: string, f: StoreFaults): (r: StoreOutcome)
    ensures r.rc == TpmFail
    ensures r.fs.files == fs.files - {tmp} || (f.unlinkFails && r.fs.files == fs.files)
  {
    var u := Log(fs, Unlink(tmp));
    StoreOutcome(TpmFail, if f.unlinkFails || tmp !in fs.files then u else u.(files := u.files - {tmp}))
  }

  /** Delete: resolve, remove; ENOENT is a failure only if mustExist. */
  function Delete(fs: Fs, cfg: Config, tpmNumber: uint32, name: string, mustExist: bool, uri: string, removeFails: bool): (r: DeleteOutcome)
    ensures r.rc != TpmRetry
    ensures r.rc == TpmSuccess ==> var p := Names.Resolve(cfg.filenameMax, cfg.version, tpmNumber, name, false, uri); p.Ok? && p.value !in r.fs.files
  {
    match Names.Resolve(cfg.filenameMax, cfg.version, tpmNumber, name, false, uri)
    case Err(code) => DeleteOutcome(code, fs)
    case Ok(path) =>
      var removing := Log(fs, Remove(path));
      if removeFails then DeleteOutcome(TpmFail, removing)
      else if path !in fs.files then DeleteOutcome(if mustExist then TpmFail else TpmSuccess, removing)
      else DeleteOutcome(TpmSuccess, removing.(files := fs.files - {path}))
  }

  /** The file system the backend calls into. Descriptors are not numbered:
      each call names the path its descriptor was opened on, and a
      successful open returns some non-negative number. */
  class FileSystem {
    var files: Files
    var calls: seq<Call>

    constructor (initial: Files)
      ensures State() == Fs(initial, [])
    {
      files := initial;
      calls := [];
    }

    function State(): (s: Fs)
      reads this
    {
      Fs(files, calls)
    }

    method OpenRead(path: string, fails: bool) returns (fd: int, errno: Errno)
      modifies this`calls
      ensures calls == old(calls) + [Call.OpenRead(path)]
      ensures fd >= 0 <==> !fails && path in files
      ensures fd < 0 ==> errno == if fails then EOTHER else ENOENT
    {
      calls := calls + [Call.OpenRead(path)];
      if fails {
        fd, errno := -1, EOTHER;
      } else if path !in files {
        fd, errno := -1, ENOENT;
      } else {
        fd, errno := 3, NoError;
      }
    }

    method Fchmod(path: string, fails: bool) returns (irc: int)
      modifies this`calls
      ensures calls == old(calls) + [Call.Fchmod(path)]
      ensures irc < 0 <==> fails
    {
      calls := calls + [Call.Fchmod(path)];
      irc := if fails then -1 else 0;
    }

    method Fstat(path: string, fails: bool) returns (irc: int, size: nat)
      requires path in files
      modifies this`calls
      ensures calls == old(calls) + [Call.Fstat(path)]
      ensures irc == -1 <==> fails
      ensures !fails ==> size == |files[path]|
    {
      calls := calls + [Call.Fstat(path)];
      if fails {
        irc, size := -1, 0;
      } else {
        irc, size := 0, |files[path]|;
      }
    }

    /** read(fd, buf, count) on a file positioned at its start. */
    method Read(path: string, count: nat, short: bool) returns (n: int, bytes: seq<byte>)
      requires path in files && 0 < count <= |files[path]|
      modifies this`calls
      ensures calls == old(calls) + [Call.Read(path)]
      ensures n == count <==> !short
      ensures !short ==> bytes == files[path][..count]
    {
      calls := calls + [Call.Read(path)];
      if short {
        n, bytes := count - 1, files[path][..count - 1];
      } else {
        n, bytes := count, files[path][..count];
      }
    }

    method Close(path: string, fails: bool) returns (irc: int)
      modifies this`calls
      ensures calls == old(calls) + [Call.Close(path)]
      ensures irc != 0 <==> fails
    {
      calls := calls + [Call.Close(path)];
      irc := if fails then -1 else 0;
    }

    /** open(path, O_WRONLY|O_CREAT|O_TRUNC|O_NOFOLLOW, mode). */
    method OpenWrite(path: string, fails: bool) returns (fd: int)
      modifies this
      ensures calls == old(calls) + [Call.OpenWrite(path)]
      ensures fd >= 0 <==> !fails
      ensures files == if fails then old(files) else old(files)[path := []]
    {
      calls := calls + [Call.OpenWrite(path)];
      if fails {
        fd := -1;
      } else {
        files := files[path := []];
        fd := 3;
      }
    }

    /** write_full: appends the first bytes of data, returning how many. */
    method WriteFull(path: string, data: seq<byte>, stop: Option<nat>) returns (written: nat)
      requires path in files
      modifies this
      ensures calls == old(calls) + [Call.Write(path)]
      ensures written == Written(StoreFaults(false, stop, false, false, false, false, false, false, false), |data|)
      ensures files == old(files)[path := old(files)[path] + data[..written]]
    {
      calls := calls + [Call.Write(path)];
      written := if stop.Some? && stop.value < |data| then stop.value else |data|;
      files := files[path := files[path] + data[..written]];
    }

    method Fsync(path: string, fails: bool) returns (irc: int)
      modifies this`calls
      ensures calls == old(calls) + [Call.Fsync(path)]
      ensures irc != 0 <==> fails
    {
      calls := calls + [Call.Fsync(path)];
      irc := if fails then -1 else 0;
    }

    /** rename(from, to): atomically replaces to by from; a no-op when both
        name the same file. */
    method Rename(from: string, to: string, fails: bool) returns (irc: int)
      modifies this
      ensures calls == old(calls) + [Call.Rename(from, to)]
      ensures irc == 0 <==> !fails && from in old(files)
      ensures files == if irc != 0 then old(files) else (old(files) - {from})[to := old(files)[from]]
    {
      calls := calls + [Call.Rename(from, to)];
      if fails || from !in files {
        irc := -1;
      } else {
        files := (files - {from})[to := files[from]];
        irc := 0;
      }
    }

    method OpenDir(dir: string, fails: bool) returns (fd: int)
      modifies this`calls
      ensures calls == old(calls) + [Call.OpenDir(dir)]
      ensures fd >= 0 <==> !fails
    {
      calls := calls + [Call.OpenDir(dir)];
      fd := if fails then -1 else 4;
    }

    method FsyncDir(dir: string, fails: bool) returns (irc: int)
      modifies this`calls
      ensures calls == old(calls) + [Call.FsyncDir(dir)]
      ensures irc != 0 <==> fails
    {
      calls := calls + [Call.FsyncDir(dir)];
      irc := if fails then -1 else 0;
    }

    method CloseDir(dir: string, fails: bool) returns (irc: int)
      modifies this`calls
      ensures calls == old(calls) + [Call.CloseDir(dir)]
      ensures irc != 0 <==> fails
    {
      calls := calls + [Call.CloseDir(dir)];
      irc := if fails then -1 else 0;
    }

    method Unlink(path: string, fails: bool) returns (irc: int)
      modifies this
      ensures calls == old(calls) + [Call.Unlink(path)]
      ensures irc == 0 <==> !fails && path in old(files)
      ensures files == if irc != 0 then old(files) else old(files) - {path}
    {
      calls := calls + [Call.Unlink(path)];
      if fails || path !in files {
        irc := -1;
      } else {
        files := files - {path};
        irc := 0;
      }
    }

    method Remove(path: string, fails: bool) returns (irc: int, errno: Errno)
      modifies this
      ensures calls == old(calls) + [Call.Remove(path)]
      ensures irc == 0 <==> !fails && path in old(files)
      ensures irc != 0 ==> errno == if fails then EOTHER else ENOENT
      ensures files == if irc != 0 then old(files) else old(files) - {path}
    {
      calls := calls + [Call.Remove(path)];
      if fails {
        irc, errno := -1, EOTHER;
      } else if path !in files {
        irc, errno := -1, ENOENT;
      } else {
        files := files - {path};
        irc, errno := 0, NoError;
      }
    }

    /** SWTPM_NVRAM_LoadData_File. */
    method LoadData(cfg: Config, tpmNumber: uint32, name: string, uri: string, f: LoadFaults)
      returns (rc: TpmResult, data: seq<byte>, length: nat)
      modifies this`calls
      ensures Load(old(State()), cfg, tpmNumber, name, uri, f) == LoadOutcome(rc, data, length, State())
    {
      rc, data, length := TpmSuccess, [], 0;
      var fd := -1;
      var filename := "";
      var res := Names.Resolve(cfg.filenameMax, cfg.version, tpmNumber, name, false, uri);
      if res.Err? {
        rc := res.code;
      } else {
        filename := res.value;
      }
      if rc == TpmSuccess {
        var errno;
        fd, errno := OpenRead(filename, f.openFails);
        if fd < 0 {
          if errno == ENOENT {
            rc := TpmRetry;
          } else {
            rc := TpmFail;
          }
        }
      }
      if rc == TpmSuccess {
        var irc := Fchmod(filename, f.fchmodFails);
        if irc < 0 {
          rc := TpmFail;
        }
      }
      var size := 0;
      if rc == TpmSuccess {
        var irc;
        irc, size := Fstat(filename, f.fstatFails);
        if irc == -1 {
          rc := TpmFail;
        }
      }
      if rc == TpmSuccess {
        length := size % UINT32_LIMIT;
      }
      if rc == TpmSuccess && length != 0 {
        if f.mallocFails {
          rc := TpmFail;
        }
      }
      if rc == TpmSuccess && length != 0 {
        var src, bytes := Read(filename, length, f.readShort);
        if src != length {
          rc := TpmFail;
        } else {
          data := bytes;
        }
      }
      if fd >= 0 {
        var irc := Close(filename, f.closeFails);
        if irc != 0 {
          rc := TpmFail;
        }
      }
    }

    /** SWTPM_NVRAM_StoreData_File. */
    method StoreData(cfg: Config, data: seq<byte>, tpmNumber: uint32, name: string, uri: string, f: StoreFaults)
      returns (rc: TpmResult)
      modifies this
      ensures Store(old(State()), cfg, data, tpmNumber, name, uri, f) == StoreOutcome(rc, State())
    {
      rc := TpmSuccess;
      var fd, dirFd := -1, -1;
      var filename, tmpfile := "", "";
      var res := Names.Resolve(cfg.filenameMax, cfg.version, tpmNumber, name, false, uri);
      if res.Err? {
        rc := res.code;
      } else {
        filename := res.value;
      }
      if rc == TpmSuccess {
        res := Names.Resolve(cfg.filenameMax, cfg.version, tpmNumber, name, true, uri);
        if res.Err? {
          rc := TpmFail;
        } else {
          tmpfile := res.value;
          Names.TempNeverPermanent(cfg.version, tpmNumber, name, cfg.version, tpmNumber, name, uri);
        }
      }
      if rc == TpmSuccess {
        fd := OpenWrite(tmpfile, f.openFails);
        if fd < 0 {
          rc := TpmFail;
        }
      }
      if rc == TpmSuccess {
        ghost var created := files;
        var lrc := WriteFull(tmpfile, data, f.writeStop);
        assert created == old(files)[tmpfile := []];
        assert [] + data[..lrc] == data[..lrc];
        assert files == old(files)[tmpfile := data[..lrc]];
        if lrc != |data| {
          rc := TpmFail;
        } else {
          assert data[..lrc] == data;
        }
      }
      if rc == TpmSuccess && fd >= 0 {
        var irc := Fsync(tmpfile, f.fsyncFails);
        if irc != 0 {
          rc := TpmFail;
        }
      }
      if fd >= 0 {
        var irc := Close(tmpfile, f.closeFails);
        if irc != 0 {
          rc := TpmFail;
        }
      }
      if rc == TpmSuccess && fd >= 0 {
        var irc := Rename(tmpfile, filename, f.renameFails);
        if irc != 0 {
          rc := TpmFail;
        }
      }
      if rc == TpmSuccess && fd >= 0 {
        dirFd := OpenDir(uri, f.openDirFails);
        if dirFd < 0 {
          rc := TpmFail;
        }
      }
      if rc == TpmSuccess && dirFd >= 0 {
        var irc := FsyncDir(uri, f.fsyncDirFails);
        if irc != 0 {
          rc := TpmFail;
        }
      }
      if dirFd >= 0 {
        var irc := CloseDir(uri, f.closeDirFails);
        if irc != 0 {
          rc := TpmFail;
        }
      }
      if rc != TpmSuccess && fd >= 0 {
        var _ := Unlink(tmpfile, f.unlinkFails);
      }
    }

    /** SWTPM_NVRAM_DeleteName_File. */
    method DeleteName(cfg: Config, tpmNumber: uint32, name: string, mustExist: bool, uri: string, removeFails: bool)
      returns (rc: TpmResult)
      modifies this
      ensures Delete(old(State()), cfg, tpmNumber, name, mustExist, uri, removeFails) == DeleteOutcome(rc, State())
    {
      var res := Names.Resolve(cfg.filenameMax, cfg.version, tpmNumber, name, false, uri);
      rc := if res.Ok? then TpmSuccess else res.code;
      if rc == TpmSuccess {
        var irc, errno := Remove(res.value, removeFails);
        if irc != 0 && (mustExist || errno != ENOENT) {
          rc := TpmFail;
        }
      }
    }
  }
}
