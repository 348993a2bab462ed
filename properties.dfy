/** What Load, Store and Delete promise, stated over the abstract file
    system and proved from their definitions. The class methods equal these
    functions, so every lemma here holds of the methods too. */
module Properties {
  import opened NvTypes
  import Names
  import Hex
  import opened FileStore

  /** The permanent and the scratch file of a key. */
  function PermName(cfg: Config, tpmNumber: uint32, name: string, uri: string): (p: string) {
    Names.FormattedName(cfg.version, tpmNumber, name, false, uri)
  }

  function TempName(cfg: Config, tpmNumber: uint32, name: string, uri: string): (p: string) {
    Names.FormattedName(cfg.version, tpmNumber, name, true, uri)
  }

  /** The key's names fit in the FILENAME_MAX buffers. */
  predicate Resolves(cfg: Config, tpmNumber: uint32, name: string, uri: string) {
    Names.Resolve(cfg.filenameMax, cfg.version, tpmNumber, name, false, uri).Ok?
  }

  /** Path p has the same content, or the same absence, in a and b. */
  predicate SameAt(a: Files, b: Files, p: string) {
    (p in a <==> p in b) && (p in a ==> a[p] == b[p])
  }

  /** The calls an operation added to the journal. */
  function NewCalls(before: Fs, after: Fs): (c: seq<Call>)
    requires |before.calls| <= |after.calls|
  {
    after.calls[|before.calls|..]
  }

  // ---------------------------------------------------------------- Load

  /** A key that does not resolve fails the load before any system call. */
  lemma LoadUnresolved(fs: Fs, cfg: Config, tpmNumber: uint32, name: string, uri: string, f: LoadFaults)
    requires !Resolves(cfg, tpmNumber, name, uri)
    ensures var o := Load(fs, cfg, tpmNumber, name, uri, f); o.rc == TpmFail && o.fs == fs
  {
  }

  /** When open fails, ENOENT (no such record yet) gives TPM_RETRY and any
      other errno TPM_FAIL; either way only the open was attempted. */
  lemma LoadOpenFailure(fs: Fs, cfg: Config, tpmNumber: uint32, name: string, uri: string, f: LoadFaults)
    requires Resolves(cfg, tpmNumber, name, uri)
    requires f.openFails || PermName(cfg, tpmNumber, name, uri) !in fs.files
    ensures var o := Load(fs, cfg, tpmNumber, name, uri, f);
      && o.rc == (if f.openFails then TpmFail else TpmRetry)
      && o.fs.files == fs.files
      && o.fs.calls == fs.calls + [OpenRead(PermName(cfg, tpmNumber, name, uri))]
  {
  }

  /** A load succeeds exactly when the record exists and every step whose
      outcome matters succeeds; allocation and read only matter for a
      non-empty record. */
  lemma LoadSucceedsIff(fs: Fs, cfg: Config, tpmNumber: uint32, name: string, uri: string, f: LoadFaults)
    ensures var o := Load(fs, cfg, tpmNumber, name, uri, f);
      var path := PermName(cfg, tpmNumber, name, uri);
      o.rc == TpmSuccess <==>
        && Resolves(cfg, tpmNumber, name, uri)
        && !f.openFails && path in fs.files
        && !f.fchmodFails && !f.fstatFails && !f.closeFails
        && (|fs.files[path]| % UINT32_LIMIT == 0 || (!f.mallocFails && !f.readShort))
  {
  }

  /** A successful load returns the record: *length is the file size as a
      uint32_t and *data holds that many bytes of the file, which is the
      whole file for any size below 2^32. */
  lemma LoadSuccessReturnsRecord(fs: Fs, cfg: Config, tpmNumber: uint32, name: string, uri: string, f: LoadFaults)
    requires Load(fs, cfg, tpmNumber, name, uri, f).rc == TpmSuccess
    ensures var o := Load(fs, cfg, tpmNumber, name, uri, f);
      var path := PermName(cfg, tpmNumber, name, uri);
      && path in fs.files
      && o.length == |fs.files[path]| % UINT32_LIMIT
      && |o.data| == o.length && o.data == fs.files[path][..o.length]
      && (|fs.files[path]| < UINT32_LIMIT ==> o.data == fs.files[path])
  {
    LoadSucceedsIff(fs, cfg, tpmNumber, name, uri, f);
  }

  /** Once the file is open it is always closed, as the last call, and a
      failing close makes the load fail whatever came before. For an empty
      record nothing is read. */
  lemma LoadClosesWhatItOpens(fs: Fs, cfg: Config, tpmNumber: uint32, name: string, uri: string, f: LoadFaults)
    requires Resolves(cfg, tpmNumber, name, uri)
    requires !f.openFails && PermName(cfg, tpmNumber, name, uri) in fs.files
    ensures var o := Load(fs, cfg, tpmNumber, name, uri, f);
      var path := PermName(cfg, tpmNumber, name, uri);
      && o.fs.files == fs.files
      && |o.fs.calls| > |fs.calls| + 1
      && o.fs.calls[..|fs.calls| + 1] == fs.calls + [OpenRead(path)]
      && o.fs.calls[|o.fs.calls| - 1] == Close(path)
      && (f.closeFails ==> o.rc == TpmFail)
      && (|fs.files[path]| % UINT32_LIMIT == 0 ==> Read(path) !in NewCalls(fs, o.fs))
  {
    var path := PermName(cfg, tpmNumber, name, uri);
    var r := ReadOpen(Log(fs, OpenRead(path)), path, fs.files[path], f);
    assert r.fs.calls[..|fs.calls| + 1] == fs.calls + [OpenRead(path)];
    assert r.fs.files == fs.files;
  }

  /** What a load returns depends on the permanent file of the key alone. */
  lemma LoadDependsOnlyOnRecord(fs1: Fs, fs2: Fs, cfg: Config, tpmNumber: uint32, name: string, uri: string, f: LoadFaults)
    requires SameAt(fs1.files, fs2.files, PermName(cfg, tpmNumber, name, uri))
    ensures var o1, o2 := Load(fs1, cfg, tpmNumber, name, uri, f), Load(fs2, cfg, tpmNumber, name, uri, f);
      o1.rc == o2.rc && o1.data == o2.data && o1.length == o2.length
  {
  }

  // ---------------------------------------------------------------- Store

  lemma StoreUnresolved(fs: Fs, cfg: Config, data: seq<byte>, tpmNumber: uint32, name: string, uri: string, f: StoreFaults)
    requires !Resolves(cfg, tpmNumber, name, uri)
    ensures var o := Store(fs, cfg, data, tpmNumber, name, uri, f); o.rc == TpmFail && o.fs == fs
  {
  }

  /** A store succeeds exactly when every step from the creation of the
      scratch file to the close of the directory succeeds. */
  lemma StoreSucceedsIff(fs: Fs, cfg: Config, data: seq<byte>, tpmNumber: uint32, name: string, uri: string, f: StoreFaults)
    ensures Store(fs, cfg, data, tpmNumber, name, uri, f).rc == TpmSuccess <==>
      && Resolves(cfg, tpmNumber, name, uri)
      && !f.openFails && Written(f, |data|) == |data| && !f.fsyncFails && !f.closeFails
      && !f.renameFails && !f.openDirFails && !f.fsyncDirFails && !f.closeDirFails
  {
    Names.TempResolvesIffPermanent(cfg.filenameMax, cfg.version, tpmNumber, name, uri);
  }

  /** After a successful store the permanent file holds exactly the new data,
      the scratch file is gone, and every other file is as it was. */
  lemma StoreSuccessState(fs: Fs, cfg: Config, data: seq<byte>, tpmNumber: uint32, name: string, uri: string, f: StoreFaults)
    requires Store(fs, cfg, data, tpmNumber, name, uri, f).rc == TpmSuccess
    ensures var o := Store(fs, cfg, data, tpmNumber, name, uri, f);
      var perm, tmp := PermName(cfg, tpmNumber, name, uri), TempName(cfg, tpmNumber, name, uri);
      && perm in o.fs.files && o.fs.files[perm] == data
      && tmp !in o.fs.files
      && o.fs.files == (fs.files - {tmp})[perm := data]
  {
    StoreSucceedsIff(fs, cfg, data, tpmNumber, name, uri, f);
    Names.TempNeverPermanent(cfg.version, tpmNumber, name, cfg.version, tpmNumber, name, uri);
  }

  /** Whatever fails, a store touches no file but the key's two. */
  lemma StoreFrame(fs: Fs, cfg: Config, data: seq<byte>, tpmNumber: uint32, name: string, uri: string, f: StoreFaults, p: string)
    requires p != PermName(cfg, tpmNumber, name, uri) && p != TempName(cfg, tpmNumber, name, uri)
    ensures SameAt(fs.files, Store(fs, cfg, data, tpmNumber, name, uri, f).fs.files, p)
  {
  }

  /** The rename is attempted exactly when both names resolved and the
      scratch file was created, completely written, synced and closed. */
  lemma StoreRenameGuard(fs: Fs, cfg: Config, data: seq<byte>, tpmNumber: uint32, name: string, uri: string, f: StoreFaults)
    ensures var o := Store(fs, cfg, data, tpmNumber, name, uri, f);
      var perm, tmp := PermName(cfg, tpmNumber, name, uri), TempName(cfg, tpmNumber, name, uri);
      && |fs.calls| <= |o.fs.calls| && o.fs.calls[..|fs.calls|] == fs.calls
      && (Rename(tmp, perm) in NewCalls(fs, o.fs) <==>
            Resolves(cfg, tpmNumber, name, uri) && !f.openFails && Written(f, |data|) == |data|
            && !f.fsyncFails && !f.closeFails)
  {
    Names.TempResolvesIffPermanent(cfg.filenameMax, cfg.version, tpmNumber, name, uri);
    var o := Store(fs, cfg, data, tpmNumber, name, uri, f);
    var perm, tmp := PermName(cfg, tpmNumber, name, uri), TempName(cfg, tpmNumber, name, uri);
    if !Resolves(cfg, tpmNumber, name, uri) {
      assert o.fs == fs;
      assert NewCalls(fs, o.fs) == [];
    } else if f.openFails {
      assert o.fs == Log(fs, OpenWrite(tmp));
      assert NewCalls(fs, o.fs) == [OpenWrite(tmp)];
    } else {
      var w := Log(Log(fs, OpenWrite(tmp)), Write(tmp)).(files := fs.files[tmp := data[..Written(f, |data|)]]);
      assert o == StoreWritten(w, data, perm, tmp, uri, f);
      Names.TempNeverPermanent(cfg.version, tpmNumber, name, cfg.version, tpmNumber, name, uri);
      StoreOpenedCalls(fs, w, data, perm, tmp, uri, f);
    }
  }

  /** The journal of a store whose scratch file was opened and written. */
  lemma StoreOpenedCalls(fs: Fs, w: Fs, data: seq<byte>, perm: string, tmp: string, uri: string, f: StoreFaults)
    requires perm != tmp
    requires w.calls == fs.calls + [OpenWrite(tmp), Write(tmp)]
    ensures var o := StoreWritten(w, data, perm, tmp, uri, f);
      && |fs.calls| <= |o.fs.calls| && o.fs.calls[..|fs.calls|] == fs.calls
      && (Rename(tmp, perm) in NewCalls(fs, o.fs) <==>
            Written(f, |data|) == |data| && !f.fsyncFails && !f.closeFails)
  {
    var o := StoreWritten(w, data, perm, tmp, uri, f);
    StoreWrittenCalls(w, data, perm, tmp, uri, f);
    assert NewCalls(fs, o.fs) == [OpenWrite(tmp), Write(tmp)] + NewCalls(w, o.fs);
  }

  lemma StoreWrittenCalls(w: Fs, data: seq<byte>, perm: string, tmp: string, uri: string, f: StoreFaults)
    requires perm != tmp
    ensures var o := StoreWritten(w, data, perm, tmp, uri, f);
      && |w.calls| <= |o.fs.calls| && o.fs.calls[..|w.calls|] == w.calls
      && (Rename(tmp, perm) in NewCalls(w, o.fs) <==>
            Written(f, |data|) == |data| && !f.fsyncFails && !f.closeFails)
  {
    var o := StoreWritten(w, data, perm, tmp, uri, f);
    var n := NewCalls(w, o.fs);
    assert o.fs.calls == w.calls + n;
    if Written(f, |data|) == |data| && !f.fsyncFails && !f.closeFails {
      assert n[2] == Rename(tmp, perm);
    } else {
      assert Rename(tmp, perm) !in n;
    }
  }

  /** No partial state is ever visible under the permanent name: after any
      store, whatever failed, the permanent file is either exactly as before
      or exactly the new data. */
  lemma StoreNeverPartial(fs: Fs, cfg: Config, data: seq<byte>, tpmNumber: uint32, name: string, uri: string, f: StoreFaults)
    ensures var o := Store(fs, cfg, data, tpmNumber, name, uri, f);
      var perm := PermName(cfg, tpmNumber, name, uri);
      SameAt(fs.files, o.fs.files, perm) || (perm in o.fs.files && o.fs.files[perm] == data)
  {
    Names.TempNeverPermanent(cfg.version, tpmNumber, name, cfg.version, tpmNumber, name, uri);
  }

  /** A store that fails before its rename succeeded leaves the permanent
      file as it was, content or absence. */
  lemma StoreFailureBeforeRename(fs: Fs, cfg: Config, data: seq<byte>, tpmNumber: uint32, name: string, uri: string, f: StoreFaults)
    requires Store(fs, cfg, data, tpmNumber, name, uri, f).rc != TpmSuccess
    requires f.openFails || Written(f, |data|) < |data| || f.fsyncFails || f.closeFails || f.renameFails
    ensures SameAt(fs.files, Store(fs, cfg, data, tpmNumber, name, uri, f).fs.files, PermName(cfg, tpmNumber, name, uri))
  {
    Names.TempNeverPermanent(cfg.version, tpmNumber, name, cfg.version, tpmNumber, name, uri);
  }

  /** Once the rename has succeeded, a failure to open, sync or close the
      directory still makes the store fail, although the permanent file
      already holds the new data. */
  lemma StoreFailureAfterRename(fs: Fs, cfg: Config, data: seq<byte>, tpmNumber: uint32, name: string, uri: string, f: StoreFaults)
    requires Resolves(cfg, tpmNumber, name, uri)
    requires !f.openFails && Written(f, |data|) == |data| && !f.fsyncFails && !f.closeFails && !f.renameFails
    requires f.openDirFails || f.fsyncDirFails || f.closeDirFails
    ensures var o := Store(fs, cfg, data, tpmNumber, name, uri, f);
      var perm := PermName(cfg, tpmNumber, name, uri);
      o.rc == TpmFail && perm in o.fs.files && o.fs.files[perm] == data
  {
    Names.TempResolvesIffPermanent(cfg.filenameMax, cfg.version, tpmNumber, name, uri);
    Names.TempNeverPermanent(cfg.version, tpmNumber, name, cfg.version, tpmNumber, name, uri);
  }

  /** A failed store that had created its scratch file unlinks it as its
      last call; unless that unlink fails, no scratch file is left behind.
      A store that never created it changes no file. */
  lemma StoreFailureCleansUp(fs: Fs, cfg: Config, data: seq<byte>, tpmNumber: uint32, name: string, uri: string, f: StoreFaults)
    requires Store(fs, cfg, data, tpmNumber, name, uri, f).rc != TpmSuccess
    ensures var o := Store(fs, cfg, data, tpmNumber, name, uri, f);
      var tmp := TempName(cfg, tpmNumber, name, uri);
      if Resolves(cfg, tpmNumber, name, uri) && !f.openFails then
        && o.fs.calls[|o.fs.calls| - 1] == Unlink(tmp)
        && (!f.unlinkFails ==> tmp !in o.fs.files)
      else
        o.fs.files == fs.files
  {
    Names.TempResolvesIffPermanent(cfg.filenameMax, cfg.version, tpmNumber, name, uri);
  }

  // ---------------------------------------------------------------- Delete

  /** A delete succeeds exactly when remove works, or finds no file and the
      file need not exist. */
  lemma DeleteSucceedsIff(fs: Fs, cfg: Config, tpmNumber: uint32, name: string, mustExist: bool, uri: string, removeFails: bool)
    ensures Delete(fs, cfg, tpmNumber, name, mustExist, uri, removeFails).rc == TpmSuccess <==>
      && Resolves(cfg, tpmNumber, name, uri) && !removeFails
      && (PermName(cfg, tpmNumber, name, uri) in fs.files || !mustExist)
  {
  }

  /** remove is attempted exactly when the name resolves; the permanent
      file is gone afterwards unless remove failed, and nothing else changes. */
  lemma DeleteState(fs: Fs, cfg: Config, tpmNumber: uint32, name: string, mustExist: bool, uri: string, removeFails: bool)
    ensures var o := Delete(fs, cfg, tpmNumber, name, mustExist, uri, removeFails);
      var path := PermName(cfg, tpmNumber, name, uri);
      if Resolves(cfg, tpmNumber, name, uri) then
        && o.fs.calls == fs.calls + [Remove(path)]
        && o.fs.files == if removeFails then fs.files else fs.files - {path}
      else
        o.fs == fs
  {
  }

  /** Deleting a record that need not exist twice succeeds both times. */
  lemma DeleteIdempotent(fs: Fs, cfg: Config, tpmNumber: uint32, name: string, uri: string)
    requires Resolves(cfg, tpmNumber, name, uri)
    ensures var d1 := Delete(fs, cfg, tpmNumber, name, false, uri, false);
      var d2 := Delete(d1.fs, cfg, tpmNumber, name, false, uri, false);
      && d1.rc == TpmSuccess && d2.rc == TpmSuccess
      && d2.fs.files == d1.fs.files == fs.files - {PermName(cfg, tpmNumber, name, uri)}
  {
  }

  // ---------------------------------------------------------- lifecycles

  /** Round trip: a store without failures followed by a load without
      failures returns the stored bytes and their length, for an empty blob
      too. */
  lemma StoreThenLoad(fs: Fs, cfg: Config, data: seq<byte>, tpmNumber: uint32, name: string, uri: string)
    requires Resolves(cfg, tpmNumber, name, uri)
    requires |data| < UINT32_LIMIT
    ensures var s := Store(fs, cfg, data, tpmNumber, name, uri, NO_STORE_FAULTS);
      var l := Load(s.fs, cfg, tpmNumber, name, uri, NO_LOAD_FAULTS);
      s.rc == TpmSuccess && l.rc == TpmSuccess && l.data == data && l.length == |data|
  {
    var s := Store(fs, cfg, data, tpmNumber, name, uri, NO_STORE_FAULTS);
    StoreSucceedsIff(fs, cfg, data, tpmNumber, name, uri, NO_STORE_FAULTS);
    StoreSuccessState(fs, cfg, data, tpmNumber, name, uri, NO_STORE_FAULTS);
    LoadSucceedsIff(s.fs, cfg, tpmNumber, name, uri, NO_LOAD_FAULTS);
    LoadSuccessReturnsRecord(s.fs, cfg, tpmNumber, name, uri, NO_LOAD_FAULTS);
  }

  /** A load after any store, failed or not, returns what it returned before
      the store or reads the new data: never anything else. */
  lemma LoadAfterStoreSeesOldOrNew(fs: Fs, cfg: Config, data: seq<byte>, tpmNumber: uint32, name: string, uri: string, sf: StoreFaults, lf: LoadFaults)
    ensures var s := Store(fs, cfg, data, tpmNumber, name, uri, sf);
      var after, before := Load(s.fs, cfg, tpmNumber, name, uri, lf), Load(fs, cfg, tpmNumber, name, uri, lf);
      var perm := PermName(cfg, tpmNumber, name, uri);
      || (after.rc == before.rc && after.data == before.data && after.length == before.length)
      || (&& perm in s.fs.files && s.fs.files[perm] == data
          && (after.rc == TpmSuccess && |data| < UINT32_LIMIT ==> after.data == data))
  {
    var s := Store(fs, cfg, data, tpmNumber, name, uri, sf);
    StoreNeverPartial(fs, cfg, data, tpmNumber, name, uri, sf);
    if SameAt(fs.files, s.fs.files, PermName(cfg, tpmNumber, name, uri)) {
      LoadDependsOnlyOnRecord(s.fs, fs, cfg, tpmNumber, name, uri, lf);
    } else if Load(s.fs, cfg, tpmNumber, name, uri, lf).rc == TpmSuccess {
      LoadSuccessReturnsRecord(s.fs, cfg, tpmNumber, name, uri, lf);
    }
  }

  /** Atomicity: a store interrupted before its rename succeeded leaves a
      later load returning the previous record, or TPM_RETRY if there was
      none. */
  lemma LoadAfterFailedStore(fs: Fs, cfg: Config, data: seq<byte>, tpmNumber: uint32, name: string, uri: string, sf: StoreFaults, lf: LoadFaults)
    requires Store(fs, cfg, data, tpmNumber, name, uri, sf).rc != TpmSuccess
    requires sf.openFails || Written(sf, |data|) < |data| || sf.fsyncFails || sf.closeFails || sf.renameFails
    ensures var s := Store(fs, cfg, data, tpmNumber, name, uri, sf);
      var after, before := Load(s.fs, cfg, tpmNumber, name, uri, lf), Load(fs, cfg, tpmNumber, name, uri, lf);
      after.rc == before.rc && after.data == before.data && after.length == before.length
  {
    var s := Store(fs, cfg, data, tpmNumber, name, uri, sf);
    StoreFailureBeforeRename(fs, cfg, data, tpmNumber, name, uri, sf);
    LoadDependsOnlyOnRecord(s.fs, fs, cfg, tpmNumber, name, uri, lf);
  }

  /** After a delete a load finds no record: TPM_RETRY. */
  lemma LoadAfterDelete(fs: Fs, cfg: Config, tpmNumber: uint32, name: string, mustExist: bool, uri: string)
    requires Resolves(cfg, tpmNumber, name, uri)
    ensures var d := Delete(fs, cfg, tpmNumber, name, mustExist, uri, false);
      Load(d.fs, cfg, tpmNumber, name, uri, NO_LOAD_FAULTS).rc == TpmRetry
  {
  }

  /** The on-disk layout of a worked example: instance 0's "permall" record
      of a TPM 1.2 lives in tpm-00.permall and of a TPM 2 in tpm2-00.permall;
      three bytes stored there come back with length 3. */
  lemma PermallExample(fs: Fs)
    ensures PermName(Config(Tpm12, 4096, 20), 0, "permall", "/tmp/teststate") == "/tmp/teststate/tpm-00.permall"
    ensures PermName(Config(Tpm2, 4096, 20), 0, "permall", "/tmp/teststate") == "/tmp/teststate/tpm2-00.permall"
    ensures var cfg := Config(Tpm2, 4096, 20);
      var s := Store(fs, cfg, [0xAA, 0xBB, 0xCC], 0, "permall", "/tmp/teststate", NO_STORE_FAULTS);
      var l := Load(s.fs, cfg, 0, "permall", "/tmp/teststate", NO_LOAD_FAULTS);
      l.rc == TpmSuccess && l.data == [0xAA, 0xBB, 0xCC] && l.length == 3
  {
    PermallNames();
    var cfg := Config(Tpm2, 4096, 20);
    assert Resolves(cfg, 0, "permall", "/tmp/teststate");
    StoreThenLoad(fs, cfg, [0xAA, 0xBB, 0xCC], 0, "permall", "/tmp/teststate");
  }

  lemma PermallNames()
    ensures PermName(Config(Tpm12, 4096, 20), 0, "permall", "/tmp/teststate") == "/tmp/teststate/tpm-00.permall"
    ensures PermName(Config(Tpm2, 4096, 20), 0, "permall", "/tmp/teststate") == "/tmp/teststate/tpm2-00.permall"
  {
    assert Hex.DigitChar(0) == '0';
    assert Hex.Format02(0) == "00";
  }
}
