/** Shared vocabulary of the file backend: machine integers, the TPM result
    codes the backend returns, the record-format version and the settings
    the backend reads from its environment. */
module NvTypes {

  /** An octet of a stored blob. */
  newtype byte = x: int | 0 <= x < 0x100

  /** C's uint32_t: instance numbers and blob lengths. */
  newtype uint32 = x: int | 0 <= x < 0x1_0000_0000

  const UINT32_LIMIT: nat := 0x1_0000_0000

  /** The three TPM_RESULT values this backend produces. */
  datatype TpmResult = TpmSuccess | TpmFail | TpmRetry

  /** The TPM specification family the emulator runs; it selects the file
      name suffix. */
  datatype TpmVersion = Tpm12 | Tpm2

  /** The process-wide record-format version (tpmstate_get_version()) and the
      two platform limits the backend compares lengths against:
      FILENAME_MAX (the size of every name buffer) and TPM_FILENAME_MAX (the
      room reserved for a file name relative to the state directory). */
  datatype Config = Config(version: TpmVersion, filenameMax: nat, tpmFilenameMax: nat)

  /** A C pointer that may be NULL. */
  datatype Option<T> = None | Some(value: T)

  /** A value or the TPM_RESULT that explains why there is none. */
  datatype Result<T> = Ok(value: T) | Err(code: TpmResult)
}
