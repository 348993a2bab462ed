# swtpm file-backed NVRAM store, modelled in Dafny

swtpm keeps a TPM's persistent state in small files, one per record, under a
state directory. The file backend (`src/swtpm/swtpm_nvstore_file.c`) has four
parts. A resolver maps a key (instance number and record name) to a file
name. A validator checks the directory path. Prepare validates the directory
and then locks it. Load, Store and Delete work on one record each. Store
writes a scratch file, syncs and closes it, renames it over the permanent file
and then syncs the directory. That rename is what makes a store atomic.

This project models that core:

- `types.dfy` (`NvTypes`): bytes, `uint32`, the results `TPM_SUCCESS`,
  `TPM_FAIL` and `TPM_RETRY`, and the TPM version. `Config` holds the
  settings the backend reads from outside, passed in explicitly.
- `hex.dfy` (`Hex`): the `%02lx` conversion. It proves the conversion
  denotes the number, and that it is the only numeral with at least two
  lower-case digits and no extra leading zero.
- `names.dfy` (`Names`): the resolver, both as written and corrected (see
  Findings), with the facts about the names it builds.
- `directory.dfy` (`Directory`): `SWTPM_NVRAM_Validate_File` and the
  ordering inside `SWTPM_NVRAM_Prepare_File`.
- `filestore.dfy` (`FileStore`): an abstract file system with two parts. One
  is a map from path to contents. The other is a journal of the system calls
  made so far.
  - Every system call takes a flag that makes it fail.
  - A missing file gives ENOENT because the path is not in the map.
  - The functions `Load`, `Store` and `Delete` define each operation directly:
    each stops at the first failure and still runs the clean-up the source
    runs.
  - The class `FileSystem` has one method per system call and one method
    for each of `SWTPM_NVRAM_LoadData_File`, `SWTPM_NVRAM_StoreData_File`
    and `SWTPM_NVRAM_DeleteName_File`. Those three follow the source statement by
    statement, threading `rc`, `fd` and `dir_fd`. Each postcondition equates
    the method's result and the new state with the matching function. The
    resolver, the validator and Prepare compute values only, so they are
    functions in `Names` and `Directory`.
- `properties.dfy` (`Properties`): what those functions promise, and the
  lifecycle properties that connect operations. These are the round trip,
  atomicity, no partial visibility and idempotent delete.

Three behaviours of the code are easy to misread. The model follows the
code in the first two, and only partly in the third:
- Every failure is reported as the same `TPM_FAIL`. Only a missing record is
  told apart, as `TPM_RETRY`.
- A store that fails after a successful rename returns `TPM_FAIL` while the
  permanent file already holds the new data.
- The resolver accepts a name that exactly fills its buffer, and that name
  comes back truncated (see Findings). `Names.ResolveAsWritten` follows the
  code here. `Load`, `Store` and `Delete` use the corrected `Names.Resolve`
  instead (see Left out).

## Model

| member | source | states |
|---|---|---|
| `Hex.Format02` | src/swtpm/swtpm_nvstore_file.c:102-106 | defines the `%02lx` conversion of the instance number as the shortest lower-case numeral padded with '0' to two digits; its result has at least two characters |
| `Names.Suffix` | src/swtpm/swtpm_nvstore_file.c:88-99 | defines the version suffix: "" for TPM 1.2 and "2" for TPM 2, so a TPM 2 name is one character longer |
| `Names.FormattedName` | src/swtpm/swtpm_nvstore_file.c:101-107 | defines the untruncated string snprintf formats, `<dir>/TMP<suffix>-<hex>.<name>` or `<dir>/tpm<suffix>-<hex>.<name>`: it starts with the directory and "/" and ends with "." and the record name |
| `Hex.Format02Correct` | src/swtpm/swtpm_nvstore_file.c:102-106 | the `%02lx` numeral of the instance number has at least two lower-case hex digits, no superfluous leading zero, exactly two digits below 0x100, and denotes the number |
| `Hex.Format02Unique` | src/swtpm/swtpm_nvstore_file.c:102-106 | any canonical numeral with the number's value is the `%02lx` output, so the encoding is fully determined |
| `Hex.Format02Injective` | src/swtpm/swtpm_nvstore_file.c:102-106 | different instance numbers get different numerals |
| `Names.NameLength` | src/swtpm/swtpm_nvstore_file.c:101-107 | the formatted name is the directory path plus a part whose length depends only on version, number and record name |
| `Names.TempNeverPermanent` | src/swtpm/swtpm_nvstore_file.c:101-107 | a `TMP` scratch name never equals a `tpm` permanent name in the same directory, for any two keys and versions |
| `Names.VersionsNeverShareName` | src/swtpm/swtpm_nvstore_file.c:88-107 | the TPM 1.2 name (suffix "") and the TPM 2 name (suffix "2") of any two keys differ |
| `Names.NameDeterminesKey` | src/swtpm/swtpm_nvstore_file.c:105-106 | a file name determines the instance number and the record name, so distinct keys never share a formatted (untruncated) name |
| `Names.ResolveAsWritten` | src/swtpm/swtpm_nvstore_file.c:108-110 | as written: fails with `TPM_FAIL` exactly when the formatted length exceeds bufsize, and succeeds when it equals bufsize |
| `Names.AsWrittenAcceptsTruncatedName` | src/swtpm/swtpm_nvstore_file.c:102-110 | when the length equals bufsize, the as-written resolver succeeds and hands back the name with its last character cut off |
| `Names.AsWrittenTruncationExample` | src/swtpm/swtpm_nvstore_file.c:105-110 | concretely, "/d/tpm-00.permall" in a 17-byte buffer is accepted as "/d/tpm-00.permal" |
| `Names.AsWrittenKeysCollide` | src/swtpm/swtpm_nvstore_file.c:102-110 | with the as-written check and a 17-byte buffer, the distinct records "permall" and "permal" of instance 0 resolve to the same file "/d/tpm-00.permal" |
| `Names.Resolve` | src/swtpm/swtpm_nvstore_file.c:108-114 | corrected: succeeds exactly when the name and its NUL fit in bufsize, and then returns the untruncated name; otherwise `TPM_FAIL` |
| `Names.ResolveAgreesExceptExactFit` | src/swtpm/swtpm_nvstore_file.c:108-110 | the corrected and the as-written resolver agree on every length except bufsize |
| `Names.TempResolvesIffPermanent` | src/swtpm/swtpm_nvstore_file.c:321-331 | the scratch name resolves exactly when the permanent name does |
| `Directory.Validate` | src/swtpm/swtpm_nvstore_file.c:117-148 | succeeds exactly when the path is non-null and its length plus TPM_FILENAME_MAX is at most FILENAME_MAX; otherwise `TPM_FAIL` |
| `Directory.Prepare` | src/swtpm/swtpm_nvstore_file.c:192-203 | the lock is attempted exactly when validation succeeded; success exactly when both succeed; the result is always `TPM_SUCCESS` or `TPM_FAIL` |
| `Directory.ValidatedRootFitsShortNames` | src/swtpm/swtpm_nvstore_file.c:135-143 | after validation, every name whose part below the directory is shorter than TPM_FILENAME_MAX resolves |
| `Directory.ValidationDoesNotBoundNames` | src/swtpm/swtpm_nvstore_file.c:135-143 | validation is only a bound: a validated directory can still have a record name that does not resolve |
| `FileStore.Written` | src/swtpm/swtpm_nvstore_file.c:350-356 | write_full returns at most the length, and the full length exactly when it is not stopped early |
| `FileStore.Load` | src/swtpm/swtpm_nvstore_file.c:205-303 | defines the load, resolve then open then `ReadOpen` then close: it changes no file, on success the data has the returned length, and a `TPM_RETRY` result carries empty data and length 0 (that a missing record gives `TPM_RETRY` is `Properties.LoadOpenFailure`) |
| `FileStore.ReadOpen` | src/swtpm/swtpm_nvstore_file.c:244-286 | defines fchmod, fstat, malloc and read on the open file: never `TPM_RETRY`; on success the length is the size as a uint32_t and the data is that prefix of the file |
| `FileStore.Store` | src/swtpm/swtpm_nvstore_file.c:305-357 | defines the store up to the write: resolve both names, create the scratch file, keep what write_full wrote; never `TPM_RETRY`, and success needs the permanent name to resolve |
| `FileStore.StoreWritten` | src/swtpm/swtpm_nvstore_file.c:358-434 | defines the steps from fsync to the directory close: on success the scratch file is gone and the permanent file holds the data; the permanent file is never left with anything but its old content or the data |
| `FileStore.Discard` | src/swtpm/swtpm_nvstore_file.c:436-438 | defines the clean-up of a failed store: `TPM_FAIL`, and the scratch file is removed unless the unlink fails |
| `FileStore.Delete` | src/swtpm/swtpm_nvstore_file.c:443-468 | defines the delete: never `TPM_RETRY`, and on success the key's permanent file is absent |
| `FileStore.FileSystem.LoadData` | src/swtpm/swtpm_nvstore_file.c:205-303 | the C control flow over rc and fd gives exactly the result, data, length and journal of `FileStore.Load`, and leaves the files alone |
| `FileStore.FileSystem.StoreData` | src/swtpm/swtpm_nvstore_file.c:305-441 | the C control flow over rc, fd and dir_fd gives exactly the result, files and journal of `FileStore.Store` |
| `FileStore.FileSystem.DeleteName` | src/swtpm/swtpm_nvstore_file.c:443-468 | the C control flow gives exactly the result, files and journal of `FileStore.Delete` |
| `Properties.LoadUnresolved` | src/swtpm/swtpm_nvstore_file.c:220-226 | a key that does not resolve fails the load with no system call |
| `Properties.LoadOpenFailure` | src/swtpm/swtpm_nvstore_file.c:226-242 | a missing file gives `TPM_RETRY` and any other open error `TPM_FAIL`; the open is the only call and no file changes |
| `Properties.LoadSucceedsIff` | src/swtpm/swtpm_nvstore_file.c:244-300 | a load succeeds exactly when the file exists and open, fchmod, fstat and close succeed, plus malloc and a full read when the size is not 0 |
| `Properties.LoadSuccessReturnsRecord` | src/swtpm/swtpm_nvstore_file.c:263-286 | on success, length is the file size taken as a uint32_t, data holds that many leading bytes of the file, and data is the whole file for sizes below 2^32 |
| `Properties.LoadClosesWhatItOpens` | src/swtpm/swtpm_nvstore_file.c:287-300 | an opened file is closed by the last call; a close failure makes the load fail; nothing is read for a size of 0 |
| `Properties.LoadDependsOnlyOnRecord` | src/swtpm/swtpm_nvstore_file.c:222-286 | what a load returns depends only on the key's permanent file |
| `Properties.StoreUnresolved` | src/swtpm/swtpm_nvstore_file.c:321-331 | a key that does not resolve fails the store with no system call |
| `Properties.StoreSucceedsIff` | src/swtpm/swtpm_nvstore_file.c:333-434 | a store succeeds exactly when open, the full write, fsync, close, rename, directory open, directory fsync and directory close all succeed |
| `Properties.StoreSuccessState` | src/swtpm/swtpm_nvstore_file.c:383-393 | after success the permanent file holds exactly the data, the scratch file is absent, and all other files are unchanged |
| `Properties.StoreFrame` | src/swtpm/swtpm_nvstore_file.c:333-438 | whatever fails, no file other than the key's permanent and scratch file changes |
| `Properties.StoreRenameGuard` | src/swtpm/swtpm_nvstore_file.c:383-393 | the rename is attempted exactly when both names resolved and the scratch file was opened, fully written, synced and closed |
| `Properties.StoreNeverPartial` | src/swtpm/swtpm_nvstore_file.c:333-438 | after any store the permanent file is either exactly as before or exactly the new data |
| `Properties.StoreFailureBeforeRename` | src/swtpm/swtpm_nvstore_file.c:333-393 | a store that fails at or before the rename leaves the permanent file's content or absence unchanged |
| `Properties.StoreFailureAfterRename` | src/swtpm/swtpm_nvstore_file.c:395-434 | a directory open, fsync or close failure after a successful rename gives `TPM_FAIL`, while the permanent file already holds the new data |
| `Properties.StoreFailureCleansUp` | src/swtpm/swtpm_nvstore_file.c:436-438 | a failed store that opened the scratch file unlinks it as its last call, and no scratch file remains unless the unlink fails; a failed store that never opened it changes no file |
| `Properties.DeleteSucceedsIff` | src/swtpm/swtpm_nvstore_file.c:456-465 | a delete succeeds exactly when remove succeeds, or fails with ENOENT and the file need not exist |
| `Properties.DeleteState` | src/swtpm/swtpm_nvstore_file.c:453-466 | remove is attempted exactly when the name resolves; the file is gone afterwards unless remove failed; nothing else changes |
| `Properties.DeleteIdempotent` | src/swtpm/swtpm_nvstore_file.c:456-465 | deleting a record that need not exist twice succeeds both times |
| `Properties.StoreThenLoad` | src/swtpm/swtpm_nvstore_file.c:321-393 | a store without failures followed by a load without failures returns the stored bytes and their length, empty data included |
| `Properties.LoadAfterStoreSeesOldOrNew` | src/swtpm/swtpm_nvstore_file.c:383-393 | after any store, a load returns what it returned before, or the permanent file holds exactly the new data and a successful load of a buffer below 2^32 bytes returns exactly that data |
| `Properties.LoadAfterFailedStore` | src/swtpm/swtpm_nvstore_file.c:333-393 | after a store interrupted before its rename, a load returns the previous record, or `TPM_RETRY` if there was none |
| `Properties.LoadAfterDelete` | src/swtpm/swtpm_nvstore_file.c:226-233 | after a delete without failures, a load returns `TPM_RETRY` |
| `Properties.PermallExample` | src/swtpm/swtpm_nvstore_file.c:105-106 | instance 0's "permall" lives in tpm-00.permall (TPM 1.2) or tpm2-00.permall (TPM 2), and [0xAA, 0xBB, 0xCC] stored for TPM 2 loads back with length 3 |

## Left out

- `SWTPM_NVRAM_Lock_File` (lines 151-190): advisory cross-process locking with `fcntl(F_SETLK)` is concurrency semantics. Prepare takes the lock's outcome as a parameter, and the `.lock` file it creates is not in the file map.
- Durability and crash consistency: fsync and the directory fsync are steps that succeed or fail. Crashes between steps, the kernel and the storage media are not modelled.
- `write_full` (declared in `utils.h`, which is not part of this model): it is an abstract call that writes the first k bytes for some k no larger than the length. Its retry loop is not modelled.
- Permission bits: the mode from `tpmstate_get_mode()`, the fchmod on load, and the `O_NOFOLLOW` and `O_CREAT` flags only have a success or failure outcome. Symbolic links are not modelled.
- Global configuration: `tpmstate_get_version()` is `Config.version`, passed in. Only the two TPM versions exist, so the switch has no default case.
- FILENAME_MAX and TPM_FILENAME_MAX are defined in headers that are not part of this model. They are the parameters `Config.filenameMax` and `Config.tpmFilenameMax`.
- Logging, `TPM_DEBUG` and the `nvram_file_ops` dispatch table (lines 61-66).
- Concurrency: there is one caller and no interleaving.
- Paths and record names are Dafny strings, and a `string` stands for a C byte string with one character per byte. The lengths compared with FILENAME_MAX in `Directory.Validate` and `Names.Resolve` are byte counts only for ASCII paths and names without NUL. A non-ASCII path (UTF-8 "é" is two bytes) is counted shorter than the C's `strlen` and snprintf count it, and a name with an embedded NUL, which no C string can hold, is not excluded.
- Directories are not modelled. Files are a flat map keyed by full path. Opening the state directory only succeeds or fails.
- File descriptor numbers are not modelled: each call names the path its descriptor was opened on.
- errno is reduced to ENOENT or some other error. An injected failure wins over ENOENT.
- snprintf is modelled only by its length and, in the as-written resolver, by the truncated name at the exact fit. A negative return (an encoding error) is not modelled.
- Load, Store and Delete take the directory path as a string. A NULL path only reaches Validate, and Prepare rejects it.
- FileStore.FileSystem.LoadData: a load that fails at malloc or at the read returns empty data, where the C leaves `*data` NULL or holding the partly read buffer; a load that fails at the open, fchmod or fstat returns length 0 where the C leaves `*length` unset. A load that fails only at the close returns the whole record, as the C does. Buffer ownership and the buffer that is not freed after a short read are not modelled.
- FileStore.FileSystem.LoadData: malloc is modelled only as a step that may fail.
- FileStore.FileSystem.LoadData: uses the corrected resolver `Names.Resolve`. At the exact fit the source opens the truncated name instead of failing (see Findings).
- FileStore.FileSystem.StoreData: uses the corrected resolver `Names.Resolve`. At the exact fit the source writes and renames the truncated names, so it can overwrite another record's file (`Names.AsWrittenKeysCollide`).
- FileStore.FileSystem.DeleteName: uses the corrected resolver `Names.Resolve`. At the exact fit the source removes the truncated name, which can be another record's file.

## Findings

| source | as written | input that shows it | evidently intended | confidence | as-written member | corrected member |
|---|---|---|---|---|---|---|
| src/swtpm/swtpm_nvstore_file.c:108 | `if ((size_t)n > bufsize) res = TPM_FAIL;` | a formatted name exactly bufsize characters long, e.g. "/d/tpm-00.permall" with bufsize 17: snprintf keeps 16 characters and the NUL, yet the resolver succeeds (`Names.AsWrittenTruncationExample`), and the records "permall" and "permal" then share the file "/d/tpm-00.permal" (`Names.AsWrittenKeysCollide`) | fail when `n >= bufsize`, so a truncated name is never used | high (not executed) | `Names.ResolveAsWritten` | `Names.Resolve` |
