/** The key-to-path resolver: SWTPM_NVRAM_GetFilenameForName. A key is an
    instance number and a record name; its permanent file is
    <dir>/tpm<suffix>-<hex>.<name> and its scratch file for writing is
    <dir>/TMP<suffix>-<hex>.<name>. */
module Names {
  import opened NvTypes
  import Hex

  /** "" for TPM 1.2, "2" for TPM 2. */
  function Suffix(version: TpmVersion): (s: string)
    ensures |s| == if version == Tpm2 then 1 else 0
  {
    match version
    case Tpm12 => ""
    case Tpm2 => "2"
  }

  function Prefix(isTemp: bool): (s: string)
    ensures |s| == 3
  {
    if isTemp then "TMP" else "tpm"
  }

  /** The full string the snprintf call formats, before any truncation. */
  function FormattedName(version: TpmVersion, tpmNumber: uint32, name: string, isTemp: bool, uri: string): (s: string)
    ensures |s| > |uri| + |name| && s[..|uri| + 1] == uri + "/"
    ensures s[|s| - |name| - 1..] == "." + name
  {
    uri + "/" + Prefix(isTemp) + Suffix(version) + "-" + Hex.Format02(tpmNumber as nat) + "." + name
  }

  /** The length of the formatted name beyond the directory path. */
  function RelativeLength(version: TpmVersion, tpmNumber: uint32, name: string): (n: nat) {
    6 + |Suffix(version)| + |Hex.Format02(tpmNumber as nat)| + |name|
  }

  lemma NameLength(version: TpmVersion, tpmNumber: uint32, name: string, isTemp: bool, uri: string)
    ensures |FormattedName(version, tpmNumber, name, isTemp, uri)| == |uri| + RelativeLength(version, tpmNumber, name)
  {
  }

  /** The resolver as the source writes it: it fails only when the length n
      that snprintf reports exceeds bufsize. When n == bufsize, snprintf has
      kept only bufsize - 1 characters before the terminating NUL, and that
      truncated name is what the caller receives. */
  function ResolveAsWritten(bufsize: nat, version: TpmVersion, tpmNumber: uint32, name: string, isTemp: bool, uri: string): (r: Result<string>)
    ensures r.Err? <==> |FormattedName(version, tpmNumber, name, isTemp, uri)| > bufsize
    ensures r.Err? ==> r.code == TpmFail
  {
    var s := FormattedName(version, tpmNumber, name, isTemp, uri);
    if |s| > bufsize then Err(TpmFail)
    else if |s| < bufsize then Ok(s)
    else Ok(s[..bufsize - 1])
  }

  /** The exact-fit case: the as-written check reports success although the
      name handed back is not the formatted name. */
  lemma AsWrittenAcceptsTruncatedName(bufsize: nat, version: TpmVersion, tpmNumber: uint32, name: string, isTemp: bool, uri: string)
    requires |FormattedName(version, tpmNumber, name, isTemp, uri)| == bufsize
    ensures var r := ResolveAsWritten(bufsize, version, tpmNumber, name, isTemp, uri);
      r.Ok? && r.value != FormattedName(version, tpmNumber, name, isTemp, uri)
      && r.value == FormattedName(version, tpmNumber, name, isTemp, uri)[..bufsize - 1]
  {
  }

  /** A concrete input: "/d/tpm-00.permall" has 17 characters, so a 17-byte
      buffer is accepted and holds "/d/tpm-00.permal". */
  lemma AsWrittenTruncationExample()
    ensures ResolveAsWritten(17, Tpm12, 0, "permall", false, "/d") == Ok("/d/tpm-00.permal")
  {
    assert Hex.DigitChar(0) == '0';
    assert Hex.Format02(0) == "00";
    var s := FormattedName(Tpm12, 0, "permall", false, "/d");
    assert s == "/d/tpm-00.permall";
    assert s[..16] == "/d/tpm-00.permal";
  }

  /** The consequence of the exact-fit case: two distinct record names
      resolve to the same file, so storing one overwrites the other. */
  lemma AsWrittenKeysCollide()
    ensures ResolveAsWritten(17, Tpm12, 0, "permall", false, "/d") == Ok("/d/tpm-00.permal")
    ensures ResolveAsWritten(17, Tpm12, 0, "permal", false, "/d") == Ok("/d/tpm-00.permal")
  {
    AsWrittenTruncationExample();
    assert FormattedName(Tpm12, 0, "permal", false, "/d") == "/d/tpm-00.permal";
  }

  /** The resolver as intended: the name and its terminating NUL must fit in
      bufsize bytes, so a truncated name is never handed back. */
  function Resolve(bufsize: nat, version: TpmVersion, tpmNumber: uint32, name: string, isTemp: bool, uri: string): (r: Result<string>)
    ensures r.Ok? <==> |FormattedName(version, tpmNumber, name, isTemp, uri)| + 1 <= bufsize
    ensures r.Ok? ==> r.value == FormattedName(version, tpmNumber, name, isTemp, uri)
    ensures r.Err? ==> r.code == TpmFail
  {
    var s := FormattedName(version, tpmNumber, name, isTemp, uri);
    if |s| >= bufsize then Err(TpmFail) else Ok(s)
  }

  /** The corrected resolver differs from the source only in the exact-fit case. */
  lemma ResolveAgreesExceptExactFit(bufsize: nat, version: TpmVersion, tpmNumber: uint32, name: string, isTemp: bool, uri: string)
    requires |FormattedName(version, tpmNumber, name, isTemp, uri)| != bufsize
    ensures Resolve(bufsize, version, tpmNumber, name, isTemp, uri) == ResolveAsWritten(bufsize, version, tpmNumber, name, isTemp, uri)
  {
  }

  /** "TMP" and "tpm" have one length, so a key's scratch name resolves
      exactly when its permanent name does. */
  lemma TempResolvesIffPermanent(bufsize: nat, version: TpmVersion, tpmNumber: uint32, name: string, uri: string)
    ensures Resolve(bufsize, version, tpmNumber, name, true, uri).Ok? <==> Resolve(bufsize, version, tpmNumber, name, false, uri).Ok?
  {
  }

  /** No scratch name is ever a permanent name in the same directory,
      whatever the two keys and versions: they differ right after "<dir>/". */
  lemma TempNeverPermanent(v1: TpmVersion, n1: uint32, name1: string, v2: TpmVersion, n2: uint32, name2: string, uri: string)
    ensures FormattedName(v1, n1, name1, true, uri) != FormattedName(v2, n2, name2, false, uri)
  {
    var s, t := FormattedName(v1, n1, name1, true, uri), FormattedName(v2, n2, name2, false, uri);
    assert s[|uri| + 1] == 'T';
    assert t[|uri| + 1] == 't';
  }

  /** The two record-format generations never share a file name. */
  lemma VersionsNeverShareName(n1: uint32, name1: string, t1: bool, n2: uint32, name2: string, t2: bool, uri: string)
    ensures FormattedName(Tpm12, n1, name1, t1, uri) != FormattedName(Tpm2, n2, name2, t2, uri)
  {
    var s, t := FormattedName(Tpm12, n1, name1, t1, uri), FormattedName(Tpm2, n2, name2, t2, uri);
    assert s[|uri| + 4] == '-';
    assert t[|uri| + 4] == '2';
  }

  lemma {:induction false} SplitAtDot(h1: string, x: string, h2: string, y: string)
    requires Hex.IsDigits(h1) && Hex.IsDigits(h2)
    requires h1 + "." + x == h2 + "." + y
    ensures h1 == h2 && x == y
  {
    var s := h1 + "." + x;
    assert forall i :: 0 <= i < |h1| ==> s[i] == h1[i] && s[i] != '.';
    assert forall i :: 0 <= i < |h2| ==> s[i] == h2[i] && s[i] != '.';
    assert s[|h1|] == '.' && s[|h2|] == '.';
    assert h1 == s[..|h1|] == h2;
    assert x == s[|h1| + 1..] == y;
  }

  /** Distinct keys never share a file name: the name determines the
      instance number and the record name. */
  lemma NameDeterminesKey(version: TpmVersion, n1: uint32, name1: string, n2: uint32, name2: string, isTemp: bool, uri: string)
    requires FormattedName(version, n1, name1, isTemp, uri) == FormattedName(version, n2, name2, isTemp, uri)
    ensures n1 == n2 && name1 == name2
  {
    var p := uri + "/" + Prefix(isTemp) + Suffix(version) + "-";
    var h1, h2 := Hex.Format02(n1 as nat), Hex.Format02(n2 as nat);
    Hex.Format02Correct(n1 as nat);
    Hex.Format02Correct(n2 as nat);
    var s := FormattedName(version, n1, name1, isTemp, uri);
    assert s == p + (h1 + "." + name1);
    assert s == p + (h2 + "." + name2);
    assert h1 + "." + name1 == s[|p|..] == h2 + "." + name2;
    SplitAtDot(h1, name1, h2, name2);
    Hex.Format02Injective(n1 as nat, n2 as nat);
  }
}
