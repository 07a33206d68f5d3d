/**
 * SurroundStep: the pipeline step `sscm(url: ..., credentialsId: ...)`. It
 * keeps an `sscm://server:port//branch//repository` address and an optional
 * RSA key, and turns them into a SurroundSCM configuration.
 */
module Step {
  import opened Wrappers
  import opened JavaText
  import opened SscmUrl
  import Keys
  import Scm

  /** The four connection settings a step hands to the SurroundSCM constructor, after its normalisation. */
  datatype Settings = Settings(server: Option<string>, serverPort: Option<string>, branch: Option<string>,
                               repository: Option<string>)

  /**
   * `createSCM`'s settings: the four fields read out of the address. An
   * address the pattern does not match gives "" for each, which the
   * constructor turns into null.
   */
  function SettingsOf(url: Option<string>): (s: Settings)
    ensures s.server == FixEmptyAndTrim(Some(GetServerFromUrl(url)))
    ensures s.serverPort == FixEmptyAndTrim(Some(GetPortFromUrl(url)))
    ensures s.branch == FixEmptyAndTrim(Some(GetBranchFromUrl(url)))
    ensures s.repository == FixEmptyAndTrim(Some(GetRepositoryFromUrl(url)))
  {
    Settings(FixEmptyAndTrim(Some(GetServerFromUrl(url))), FixEmptyAndTrim(Some(GetPortFromUrl(url))),
             FixEmptyAndTrim(Some(GetBranchFromUrl(url))), FixEmptyAndTrim(Some(GetRepositoryFromUrl(url))))
  }

  /** Text that `fixEmptyAndTrim` keeps as it is: non-empty, nothing trimmable at either end. */
  predicate Kept(s: string) {
    s != [] && !IsTrimmable(s[0]) && !IsTrimmable(s[|s| - 1])
  }

  /**
   * A step whose address was composed from four parts configures exactly
   * those parts, as long as the address is one the pattern reads back and
   * each part survives trimming.
   */
  lemma SettingsOfComposedUrl(server: string, port: string, branch: string, repository: string)
    requires NoLineTerminator(server) && NoLineTerminator(port)
    requires NoLineTerminator(branch) && NoLineTerminator(repository)
    requires ':' !in port && '/' !in port && '/' !in branch
    requires NoDoubleSlash(repository) && (repository == [] || repository[0] != '/')
    requires Kept(server) && Kept(port) && Kept(branch) && Kept(repository)
    ensures SettingsOf(Some(Compose(server, port, branch, repository)))
            == Settings(Some(server), Some(port), Some(branch), Some(repository))
  {
    ComposeRoundTrip(server, port, branch, repository);
    TrimOfTrimmed(server);
    TrimOfTrimmed(port);
    TrimOfTrimmed(branch);
    TrimOfTrimmed(repository);
  }

  /** An address the pattern does not match leaves every setting null. */
  lemma SettingsOfInvalidUrl(url: Option<string>)
    requires !ValidateSscmUrl(url)
    ensures SettingsOf(url) == Settings(None, None, None, None)
  {
  }

  class SurroundStep {
    const sscmUrl: Option<string>
    const credentialsId: Option<string>
    var rsaKey: Keys.RSAKey?

    /** The data-bound constructor: both settings trimmed, blank becomes null; no key yet. */
    constructor (sscmUrl: Option<string>, credentialsId: Option<string>)
      ensures this.sscmUrl == FixEmptyAndTrim(sscmUrl)
      ensures this.credentialsId == FixEmptyAndTrim(credentialsId)
      ensures rsaKey == null
    {
      this.sscmUrl := FixEmptyAndTrim(sscmUrl);
      this.credentialsId := FixEmptyAndTrim(credentialsId);
      rsaKey := null;
    }

    /** `setRsaKey`: keeps the given key object, shared with the caller. */
    method SetRsaKey(key: Keys.RSAKey?)
      modifies this
      ensures rsaKey == key
    {
      rsaKey := key;
    }

    /** `hasRsaKeyConfigured`: false only for a key that says there is no key; no key object counts as configured. */
    function HasRsaKeyConfigured(): (b: bool)
      reads this, rsaKey
      ensures rsaKey == null ==> b
      ensures !b <==> rsaKey != null && rsaKey.rsaKeyType == Keys.NoKey
    {
      rsaKey == null || rsaKey.GetRsaKeyType() != Keys.NoKey
    }

    /** `isUsingRsaKeyPath`. */
    function IsUsingRsaKeyPath(): (b: bool)
      reads this, rsaKey
      ensures b <==> rsaKey != null && rsaKey.rsaKeyType == Keys.Path
      ensures b ==> HasRsaKeyConfigured()
    {
      rsaKey != null && rsaKey.GetRsaKeyType() == Keys.Path
    }

    /** `isUsingRsaKeyFileId`; never together with a key path. */
    function IsUsingRsaKeyFileId(): (b: bool)
      reads this, rsaKey
      ensures b <==> rsaKey != null && rsaKey.rsaKeyType == Keys.ID
      ensures b ==> HasRsaKeyConfigured()
      ensures b ==> !IsUsingRsaKeyPath()
    {
      rsaKey != null && rsaKey.GetRsaKeyType() == Keys.ID
    }

    /** `getRsaKeyFilePath`: the key's value exactly when it is a path. */
    function GetRsaKeyFilePath(): (r: Option<string>)
      reads this, rsaKey
      ensures !IsUsingRsaKeyPath() ==> r.None?
      ensures IsUsingRsaKeyPath() ==> r == rsaKey.rsaKeyValue
    {
      if rsaKey != null && rsaKey.GetRsaKeyType() == Keys.Path then rsaKey.GetRsaKeyValue() else None
    }

    /** `getRsaKeyFileId`: the key's value exactly when it is a file credential id. */
    function GetRsaKeyFileId(): (r: Option<string>)
      reads this, rsaKey
      ensures !IsUsingRsaKeyFileId() ==> r.None?
      ensures IsUsingRsaKeyFileId() ==> r == rsaKey.rsaKeyValue
    {
      if rsaKey != null && rsaKey.GetRsaKeyType() == Keys.ID then rsaKey.GetRsaKeyValue() else None
    }

    /** `getCredentials`: the first available credential with the step's id; none without an id. */
    function GetCredentials(available: seq<Scm.Credential>): (r: Option<Scm.Credential>)
      reads this
      ensures credentialsId.None? ==> r.None?
      ensures r.Some? ==> r.value in available && credentialsId == Some(r.value.id)
    {
      Scm.GetCredentials(credentialsId, available)
    }

    /**
     * `getFileCredentials`: nothing, without looking, unless the key is a
     * file credential id; then the first available file credential with that
     * id (none when the id itself is null).
     */
    function GetFileCredentials(available: seq<Scm.FileCredential>): (r: Option<Scm.FileCredential>)
      reads this, rsaKey
      ensures !IsUsingRsaKeyFileId() ==> r.None?
      ensures r.Some? ==> r.value in available && rsaKey.rsaKeyValue == Some(r.value.id)
    {
      if rsaKey != null && rsaKey.GetRsaKeyType() == Keys.ID then Scm.GetFileCredentials(rsaKey.GetRsaKeyValue(), available)
      else None
    }

    /**
     * `createSCM`: a new SurroundSCM whose server, port, branch and
     * repository are read out of the step's address and whose credential id
     * is the step's.
     */
    method CreateScm() returns (scm: Scm.SurroundSCM)
      ensures fresh(scm)
      ensures Settings(scm.server, scm.serverPort, scm.branch, scm.repository) == SettingsOf(sscmUrl)
      ensures scm.credentialsId == FixEmptyAndTrim(credentialsId)
      ensures scm.Normalized()
    {
      var server := GetServerFromUrl(sscmUrl);
      var port := GetPortFromUrl(sscmUrl);
      var branch := GetBranchFromUrl(sscmUrl);
      var repository := GetRepositoryFromUrl(sscmUrl);
      scm := new Scm.SurroundSCM(Some(server), Some(port), Some(branch), Some(repository), credentialsId);
    }
  }
}
