/** Opening the backend on a state directory: SWTPM_NVRAM_Validate_File and
    the sequencing of SWTPM_NVRAM_Prepare_File. Locking the directory is an
    opaque step whose outcome is a parameter. */
module Directory {
  import opened NvTypes
  import Hex
  import Names

  /** The directory path must be set and leave TPM_FILENAME_MAX characters of
      room below FILENAME_MAX. */
  function Validate(uri: Option<string>, cfg: Config): (rc: TpmResult)
    ensures rc == TpmSuccess <==> uri.Some? && |uri.value| + cfg.tpmFilenameMax <= cfg.filenameMax
    ensures rc != TpmSuccess ==> rc == TpmFail
  {
    if uri.None? then TpmFail
    else if |uri.value| + cfg.tpmFilenameMax > cfg.filenameMax then TpmFail
    else TpmSuccess
  }

  /** What Prepare returns and whether it went on to take the lock. */
  datatype PrepareOutcome = PrepareOutcome(rc: TpmResult, lockAttempted: bool)

  /** Validate, then lock; the first failure is the result. */
  function Prepare(uri: Option<string>, cfg: Config, lockFails: bool): (p: PrepareOutcome)
    ensures p.lockAttempted <==> Validate(uri, cfg) == TpmSuccess
    ensures p.rc == TpmSuccess <==> Validate(uri, cfg) == TpmSuccess && !lockFails
    ensures p.rc in {TpmSuccess, TpmFail}
  {
    var rc := Validate(uri, cfg);
    if rc != TpmSuccess then PrepareOutcome(rc, false)
    else if lockFails then PrepareOutcome(TpmFail, true)
    else PrepareOutcome(TpmSuccess, true)
  }

  /** After a successful validation, every name whose part below the
      directory is shorter than TPM_FILENAME_MAX resolves into a
      FILENAME_MAX buffer. */
  lemma ValidatedRootFitsShortNames(cfg: Config, uri: string, tpmNumber: uint32, name: string, isTemp: bool)
    requires Validate(Some(uri), cfg) == TpmSuccess
    requires Names.RelativeLength(cfg.version, tpmNumber, name) < cfg.tpmFilenameMax
    ensures Names.Resolve(cfg.filenameMax, cfg.version, tpmNumber, name, isTemp, uri).Ok?
  {
    Names.NameLength(cfg.version, tpmNumber, name, isTemp, uri);
  }

  /** Validation is only a bound: with FILENAME_MAX 40 and TPM_FILENAME_MAX
      20, a 20-character directory passes it, yet the TPM 2 name of
      "volatilestate" (20 + 22 characters) does not fit. */
  lemma ValidationDoesNotBoundNames()
    ensures var cfg := Config(Tpm2, 40, 20);
      && Validate(Some("/var/lib/swtpm/state"), cfg) == TpmSuccess
      && Names.Resolve(cfg.filenameMax, cfg.version, 0, "volatilestate", false, "/var/lib/swtpm/state").Err?
  {
    assert Hex.DigitChar(0) == '0';
    assert Hex.Format02(0) == "00";
    Names.NameLength(Tpm2, 0, "volatilestate", false, "/var/lib/swtpm/state");
  }
}
