/**
 * SurroundSCM: the job configuration of a Surround SCM checkout and the rules
 * around the external `sscm` client. Those rules are:
 * - how the `get` and `cc` command lines are put together;
 * - how the connection and login arguments are chosen;
 * - how the change count is read from the client's output;
 * - how that count becomes a polling verdict;
 * - what a successful checkout records.
 * The process itself is outside the model: its exit code and output are inputs.
 */
module Scm {
  import opened Wrappers
  import opened JavaText
  import opened Lookup
  import opened Stamps
  import Revisions
  import Tools

  /** The exceptions the modelled code lets escape. */
  datatype Failure =
    | NullPointer(what: string)               // `"-b".concat(null)`, a missing Jenkins instance
    | StringIndexOutOfBounds(length: nat)     // `substring(6)` on a shorter first line
    | MissingCredential(credentialsId: Option<string>)   // the IOException of `getUserPasswordArgument`
    | ClassCast(what: string)                 // a polling baseline that is not a SurroundSCMRevisionState

  // ---------------------------------------------------------------- polling verdict

  /** `changesThreshold`. */
  const ChangesThreshold: int := 1

  /** A Java `double` as `Double.valueOf` can produce it. */
  datatype Double = Finite(value: real) | NaN | PositiveInfinity | NegativeInfinity

  /** `PollingResult.NO_CHANGES`, `SIGNIFICANT` and `BUILD_NOW`. */
  datatype PollingResult = NoChanges | Significant | BuildNow

  /** Java's `d == 0` on a double. */
  predicate IsZero(d: Double) {
    d.Finite? && d.value == 0.0
  }

  /** Java's `d < n` on a double against an int: false whenever NaN is involved. */
  predicate LessThan(d: Double, n: int) {
    match d
    case Finite(x) => x < n as real
    case NaN => false
    case PositiveInfinity => false
    case NegativeInfinity => true
  }

  /**
   * The verdict of `compareRemoteRevisionWith`. No change means no build,
   * a count of at least the threshold means build now, and anything else
   * below it is "significant" (negative counts included). The comment on the
   * threshold speaks of "more than" one change; the test is "at least".
   * NaN fails both comparisons and so asks for a build.
   */
  function Verdict(count: Double): (v: PollingResult)
    ensures v == NoChanges <==> count == Finite(0.0)
    ensures v == Significant <==>
              (count.Finite? && count.value != 0.0 && count.value < 1.0) || count == NegativeInfinity
    ensures v == BuildNow <==> (count.Finite? && count.value >= 1.0) || count == NaN || count == PositiveInfinity
  {
    if IsZero(count) then NoChanges
    else if LessThan(count, ChangesThreshold) then Significant
    else BuildNow
  }

  // ---------------------------------------------------------------- change count

  /** `line.substring(6)`: the count follows the six characters of "total-". */
  const CountOffset: nat := 6

  /** The text after the label, or the exception `substring` throws on a shorter line. */
  function CountText(line: string): (r: Result<string, Failure>)
    ensures r.Err? <==> |line| < CountOffset
    ensures r.Ok? ==> line == line[..CountOffset] + r.value
  {
    if |line| < CountOffset then Err(StringIndexOutOfBounds(|line|)) else Ok(line[CountOffset..])
  }

  /**
   * The count `determineChangeCount` returns for the output of `sscm cc`.
   * Only the first line is read. No line at all leaves the count at 0, and
   * so does text the parser rejects. `parse` stands for `Double.valueOf`,
   * with None for a NumberFormatException.
   */
  function ChangeCount(output: seq<string>, parse: string -> Option<Double>): (r: Result<Double, Failure>)
    ensures output == [] ==> r == Ok(Finite(0.0))
    ensures output != [] ==> (r.Err? <==> |output[0]| < CountOffset)
  {
    if output == [] then Ok(Finite(0.0))
    else
      match CountText(output[0])
      case Err(f) => Err(f)
      case Ok(text) =>
        match parse(Trim(text))
        case None => Ok(Finite(0.0))
        case Some(d) => Ok(d)
  }

  /**
   * Where the count comes from: the first line from offset 6, with blanks
   * around the number ignored. Later lines and the six characters before the
   * number never matter; unparseable text counts as no change.
   */
  lemma CountComesFromFirstLine(first: string, later: seq<string>, parse: string -> Option<Double>)
    requires |first| >= CountOffset
    ensures ChangeCount([first] + later, parse).Ok?
    ensures parse(Trim(first[CountOffset..])).None? ==> ChangeCount([first] + later, parse) == Ok(Finite(0.0))
    ensures parse(Trim(first[CountOffset..])).Some? ==>
              ChangeCount([first] + later, parse) == Ok(parse(Trim(first[CountOffset..])).value)
    ensures forall prefix :: |prefix| == CountOffset ==>
              ChangeCount([prefix + first[CountOffset..]] + later, parse) == ChangeCount([first], parse)
  {
  }

  /**
   * The summary line "total-N" of `sscm cc`: N is the count, so a zero or
   * unreadable N means no change and N of at least 1 asks for a build.
   */
  lemma TotalLineVerdict(number: string, later: seq<string>, parse: string -> Option<Double>)
    ensures ChangeCount(["total-" + number] + later, parse).Ok?
    ensures parse(Trim(number)).None? || parse(Trim(number)) == Some(Finite(0.0)) ==>
              Verdict(ChangeCount(["total-" + number] + later, parse).value) == NoChanges
    ensures parse(Trim(number)).Some? && parse(Trim(number)).value.Finite? && parse(Trim(number)).value.value >= 1.0 ==>
              Verdict(ChangeCount(["total-" + number] + later, parse).value) == BuildNow
  {
  }

  /**
   * `compareRemoteRevisionWith`: the change-count command must be built
   * (a missing branch or login throws), then the count becomes the verdict.
   * The exit code of the client is only reported, so it does not take part.
   */
  function Poll(command: Result<seq<Arg>, Failure>, output: seq<string>, parse: string -> Option<Double>)
    : (r: Result<PollingResult, Failure>)
    ensures command.Err? ==> r == Err(command.error)
    ensures command.Ok? && output == [] ==> r == Ok(NoChanges)
    ensures command.Ok? ==> (r.Ok? <==> ChangeCount(output, parse).Ok?)
    ensures command.Ok? && r.Ok? ==> r.value == Verdict(ChangeCount(output, parse).value)
  {
    if command.Err? then Err(command.error)
    else
      match ChangeCount(output, parse)
      case Err(f) => Err(f)
      case Ok(count) => Ok(Verdict(count))
  }

  // ---------------------------------------------------------------- connection and login

  /** `String.format("%s", x)` prints a null as "null". */
  function Shown(s: Option<string>): (r: string)
    ensures s.Some? ==> r == s.value
    ensures s.None? ==> r == "null"
  {
    if s.None? then "null" else s.value
  }

  /** `x != null && !x.isEmpty()`. */
  predicate NonEmpty(s: Option<string>) {
    s.Some? && s.value != []
  }

  /** A stored file credential; only its id matters here. */
  datatype FileCredential = FileCredential(id: string)

  /** The two kinds of username credential the plugin can be handed. */
  datatype CredentialKind = UsernamePassword(username: string, password: string) | OtherUsernameCredential

  /** A stored username credential and its id. */
  datatype Credential = Credential(id: string, kind: CredentialKind)

  /** `c.getId().equals(id)`, false for a null id. */
  function CredentialHasId(id: Option<string>): Credential -> bool
  {
    (c: Credential) => id == Some(c.id)
  }

  function FileCredentialHasId(id: Option<string>): FileCredential -> bool
  {
    (c: FileCredential) => id == Some(c.id)
  }

  /** `getCredentials`: the first available credential with the configured id; none without an id. */
  function GetCredentials(credentialsId: Option<string>, available: seq<Credential>): (r: Option<Credential>)
    ensures credentialsId.None? ==> r.None?
    ensures r.Some? ==> r.value in available && credentialsId == Some(r.value.id)
  {
    if credentialsId.None? then None else FirstWhere(available, CredentialHasId(credentialsId))
  }

  /** `getFileCredentials`: the first available file credential with the key file id; none without an id. */
  function GetFileCredentials(rsaKeyFileId: Option<string>, available: seq<FileCredential>): (r: Option<FileCredential>)
    ensures rsaKeyFileId.None? ==> r.None?
    ensures r.Some? ==> r.value in available && rsaKeyFileId == Some(r.value.id)
  {
    if rsaKeyFileId.None? then None else FirstWhere(available, FileCredentialHasId(rsaKeyFileId))
  }

  /**
   * `populateRSAKeyFile`: a found file credential is copied into a temporary
   * file of the workspace, whose remote path is the answer. `copied` is that
   * path, or None when the copy failed (the exception is logged, not thrown).
   */
  function PopulateRsaKeyFile(found: Option<FileCredential>, hasWorkspace: bool, copied: Option<string>): (r: Option<string>)
    ensures found.None? || !hasWorkspace ==> r.None?
    ensures found.Some? && hasWorkspace ==> r == copied
  {
    if found.Some? && hasWorkspace then copied else None
  }

  /**
   * What the job's surroundings supply when a command line is built: the
   * username credentials and the file credentials available to the job,
   * whether there is a workspace, and the remote path a key file is copied
   * to in it (None when the copy fails).
   */
  datatype Environment = Environment(credentials: seq<Credential>, fileCredentials: seq<FileCredential>,
                                     hasWorkspace: bool, copied: Option<string>)

  /**
   * `getRSAKeyFilePath`: the key file of the stored credential first; the
   * configured key path only when that gives nothing; else null.
   * `populated` is what `populateRSAKeyFile` answers.
   */
  function RsaKeyFilePath(rsaKeyFileId: Option<string>, populated: Option<string>, rsaKeyPath: Option<string>)
    : (r: Option<string>)
    ensures NonEmpty(rsaKeyFileId) && populated.Some? ==> r == populated
    ensures !(NonEmpty(rsaKeyFileId) && populated.Some?) && NonEmpty(rsaKeyPath) ==> r == rsaKeyPath
    ensures !(NonEmpty(rsaKeyFileId) && populated.Some?) && !NonEmpty(rsaKeyPath) ==> r.None?
  {
    var result := if NonEmpty(rsaKeyFileId) then populated else None;
    if result.None? && NonEmpty(rsaKeyPath) then rsaKeyPath else result
  }

  /** `getServerConnectionArgument`: "-z" and a key file path when there is one, else "-z" server:port. */
  function ConnectionArgument(keyPath: Option<string>, server: Option<string>, serverPort: Option<string>)
    : (a: string)
    ensures NonEmpty(keyPath) ==> a == "-z" + keyPath.value
    ensures !NonEmpty(keyPath) ==> a == "-z" + Shown(server) + ":" + Shown(serverPort)
  {
    if NonEmpty(keyPath) then "-z" + keyPath.value
    else "-z" + Shown(server) + ":" + Shown(serverPort)
  }

  /** `getServerConnectionArgument` of a configuration, the key file looked up under its key file id. */
  function ServerConnection(rsaKeyFileId: Option<string>, rsaKeyPath: Option<string>, server: Option<string>,
                            serverPort: Option<string>, env: Environment): (a: string)
    ensures StartsWith(a, "-z")
  {
    var populated := PopulateRsaKeyFile(GetFileCredentials(rsaKeyFileId, env.fileCredentials), env.hasWorkspace, env.copied);
    ConnectionArgument(RsaKeyFilePath(rsaKeyFileId, populated, rsaKeyPath), server, serverPort)
  }

  /**
   * The first file credential stored under the key file id, once copied into
   * the workspace, is the connection: it hides the key path and the server.
   */
  lemma {:induction false} ConnectionUsesStoredKeyFile(rsaKeyFileId: Option<string>, rsaKeyPath: Option<string>,
                                                       server: Option<string>, serverPort: Option<string>,
                                                       env: Environment, i: nat)
    requires NonEmpty(rsaKeyFileId) && env.hasWorkspace && NonEmpty(env.copied)
    requires i < |env.fileCredentials| && env.fileCredentials[i].id == rsaKeyFileId.value
    requires forall k :: 0 <= k < i ==> env.fileCredentials[k].id != rsaKeyFileId.value
    ensures ServerConnection(rsaKeyFileId, rsaKeyPath, server, serverPort, env) == "-z" + env.copied.value
  {
    FirstWhereAt(env.fileCredentials, FileCredentialHasId(rsaKeyFileId), i);
  }

  /**
   * Without a key file id, a file credential under it, a workspace or a
   * successful copy, the connection is the key path when there is one and
   * server:port otherwise.
   */
  lemma {:induction false} ConnectionWithoutStoredKeyFile(rsaKeyFileId: Option<string>, rsaKeyPath: Option<string>,
                                                          server: Option<string>, serverPort: Option<string>,
                                                          env: Environment)
    requires || !NonEmpty(rsaKeyFileId) || !env.hasWorkspace || env.copied.None?
             || forall k :: 0 <= k < |env.fileCredentials| ==> env.fileCredentials[k].id != rsaKeyFileId.value
    ensures NonEmpty(rsaKeyPath) ==>
              ServerConnection(rsaKeyFileId, rsaKeyPath, server, serverPort, env) == "-z" + rsaKeyPath.value
    ensures !NonEmpty(rsaKeyPath) ==>
              ServerConnection(rsaKeyFileId, rsaKeyPath, server, serverPort, env) == "-z" + Shown(server) + ":" + Shown(serverPort)
  {
    if NonEmpty(rsaKeyFileId) {
      FirstWhereNone(env.fileCredentials, FileCredentialHasId(rsaKeyFileId));
    }
  }

  /**
   * The connection argument as the three settings decide it: a key file
   * written from the stored credential hides both the key path and the
   * server; the key path hides the server; server:port is the last resort.
   */
  lemma ConnectionPrecedence(rsaKeyFileId: Option<string>, populated: Option<string>, rsaKeyPath: Option<string>,
                             server: Option<string>, serverPort: Option<string>)
    ensures var a := ConnectionArgument(RsaKeyFilePath(rsaKeyFileId, populated, rsaKeyPath), server, serverPort);
            && (NonEmpty(rsaKeyFileId) && NonEmpty(populated) ==> a == "-z" + populated.value)
            && (!(NonEmpty(rsaKeyFileId) && populated.Some?) && NonEmpty(rsaKeyPath) ==> a == "-z" + rsaKeyPath.value)
            && (!(NonEmpty(rsaKeyFileId) && populated.Some?) && !NonEmpty(rsaKeyPath) ==>
                  a == "-z" + Shown(server) + ":" + Shown(serverPort))
  {
  }

  /**
   * `getUserPasswordArgument`: a username/password credential wins; else a
   * non-empty legacy user name, with its password when there is one; else
   * an IOException naming the credential id.
   */
  function UserPasswordArgument(credential: Option<Credential>, credentialsId: Option<string>,
                                userName: Option<string>, password: Option<string>): (r: Result<string, Failure>)
    ensures r.Ok? <==> (credential.Some? && credential.value.kind.UsernamePassword?) || NonEmpty(userName)
    ensures r.Err? ==> r.error == MissingCredential(credentialsId)
    ensures r.Ok? ==> StartsWith(r.value, "-y")
  {
    if credential.Some? && credential.value.kind.UsernamePassword? then
      Ok("-y" + credential.value.kind.username + ":" + credential.value.kind.password)
    else if NonEmpty(userName) then
      if password.Some? then Ok("-y" + userName.value + ":" + password.value) else Ok("-y" + userName.value)
    else Err(MissingCredential(credentialsId))
  }

  /** The stored credential hides the legacy user name and password entirely. */
  lemma CredentialBeatsLegacyLogin(username: string, pass: string, id: string, credentialsId: Option<string>,
                                   userName: Option<string>, password: Option<string>)
    ensures UserPasswordArgument(Some(Credential(id, UsernamePassword(username, pass))), credentialsId, userName, password)
            == Ok("-y" + username + ":" + pass)
  {
  }

  /** Without a usable credential the legacy login is used, with or without its password. */
  lemma LegacyLogin(credential: Option<Credential>, credentialsId: Option<string>, userName: string, password: Option<string>)
    requires credential.None? || credential.value.kind.OtherUsernameCredential?
    requires userName != []
    ensures password.Some? ==>
              UserPasswordArgument(credential, credentialsId, Some(userName), password) == Ok("-y" + userName + ":" + password.value)
    ensures password.None? ==>
              UserPasswordArgument(credential, credentialsId, Some(userName), password) == Ok("-y" + userName)
  {
  }

  /** `getUserPasswordArgument` of a configuration, the credential looked up under its credential id. */
  function UserLogin(credentialsId: Option<string>, userName: Option<string>, password: Option<string>,
                     env: Environment): (r: Result<string, Failure>)
    ensures r.Ok? ==> StartsWith(r.value, "-y")
    ensures r.Err? ==> r.error == MissingCredential(credentialsId)
  {
    UserPasswordArgument(GetCredentials(credentialsId, env.credentials), credentialsId, userName, password)
  }

  /**
   * The first credential stored under the credential id is the one that
   * decides the login; a username/password one gives "-yuser:password".
   */
  lemma {:induction false} LoginUsesStoredCredential(credentialsId: Option<string>, userName: Option<string>,
                                                     password: Option<string>, env: Environment, i: nat)
    requires i < |env.credentials| && credentialsId == Some(env.credentials[i].id)
    requires forall k :: 0 <= k < i ==> credentialsId != Some(env.credentials[k].id)
    ensures UserLogin(credentialsId, userName, password, env) ==
              UserPasswordArgument(Some(env.credentials[i]), credentialsId, userName, password)
    ensures env.credentials[i].kind.UsernamePassword? ==>
              UserLogin(credentialsId, userName, password, env) ==
              Ok("-y" + env.credentials[i].kind.username + ":" + env.credentials[i].kind.password)
  {
    FirstWhereAt(env.credentials, CredentialHasId(credentialsId), i);
  }

  /**
   * With no credential id, or none stored under it, only the legacy login
   * is left, and without a legacy user name the login fails naming the id.
   */
  lemma {:induction false} LoginWithoutStoredCredential(credentialsId: Option<string>, userName: Option<string>,
                                                        password: Option<string>, env: Environment)
    requires credentialsId.None? || forall k :: 0 <= k < |env.credentials| ==> credentialsId != Some(env.credentials[k].id)
    ensures UserLogin(credentialsId, userName, password, env) == UserPasswordArgument(None, credentialsId, userName, password)
    ensures !NonEmpty(userName) ==> UserLogin(credentialsId, userName, password, env) == Err(MissingCredential(credentialsId))
  {
    if credentialsId.Some? {
      FirstWhereNone(env.credentials, CredentialHasId(credentialsId));
    }
  }

  // ---------------------------------------------------------------- argument lists

  /** One command-line argument; a masked one is hidden when the command line is logged. */
  datatype Arg = Arg(text: string, masked: bool)

  /**
   * `hudson.util.ArgumentListBuilder`: arguments appended one at a time.
   * Every list is made, filled and handed over inside one call and never
   * shared, so appending returns the longer list.
   */
  datatype ArgumentList = ArgumentList(args: seq<Arg>) {
    /** `add`. */
    function Add(a: string): (r: ArgumentList)
      ensures r.args == args + [Arg(a, false)]
    {
      ArgumentList(args + [Arg(a, false)])
    }

    /** `addMasked`. */
    function AddMasked(a: string): (r: ArgumentList)
      ensures r.args == args + [Arg(a, true)]
    {
      ArgumentList(args + [Arg(a, true)])
    }
  }

  /**
   * The `sscm get` command line of `checkout`. Building it throws when the
   * branch or the repository is null, or when there is no login.
   */
  function CheckoutArgs(exe: string, branch: Option<string>, repository: Option<string>, workspace: string,
                        stamp: string, includeOutput: bool, connection: string, login: Result<string, Failure>)
    : (r: Result<seq<Arg>, Failure>)
    ensures r.Ok? <==> branch.Some? && repository.Some? && login.Ok?
    ensures r.Ok? ==> |r.value| == (if includeOutput then 11 else 12) && r.value[|r.value| - 1] == Arg(login.value, true)
  {
    if branch.None? then Err(NullPointer("branch"))
    else if repository.None? then Err(NullPointer("repository"))
    else if login.Err? then Err(login.error)
    else
      Ok([Arg(exe, false), Arg("get", false), Arg("/", false), Arg("-wreplace", false),
          Arg("-b" + branch.value, false), Arg("-p" + repository.value, false), Arg("-d" + workspace, false),
          Arg("-r", false), Arg("-s" + stamp, false)]
         + (if includeOutput then [] else [Arg("-q", false)])
         + [Arg(connection, false), Arg(login.value, true)])
  }

  /**
   * The layout of the `get` command line: the fixed prefix, "-q" exactly
   * when output is excluded, then the connection, then the login, which is
   * the only masked argument.
   */
  lemma CheckoutArgsLayout(exe: string, branch: string, repository: string, workspace: string, stamp: string,
                           includeOutput: bool, connection: string, login: string)
    ensures var r := CheckoutArgs(exe, Some(branch), Some(repository), workspace, stamp, includeOutput, connection, Ok(login));
            var n := if includeOutput then 11 else 12;
            && r.Ok? && |r.value| == n
            && r.value[0] == Arg(exe, false) && r.value[1] == Arg("get", false) && r.value[2] == Arg("/", false)
            && r.value[3] == Arg("-wreplace", false) && r.value[4] == Arg("-b" + branch, false)
            && r.value[5] == Arg("-p" + repository, false) && r.value[6] == Arg("-d" + workspace, false)
            && r.value[7] == Arg("-r", false) && r.value[8] == Arg("-s" + stamp, false)
            && r.value[9..n - 2] == (if includeOutput then [] else [Arg("-q", false)])
            && r.value[n - 2] == Arg(connection, false) && r.value[n - 1] == Arg(login, true)
            && (forall k :: 0 <= k < n - 1 ==> !r.value[k].masked)
  {
  }

  /** The `sscm cc` command line shared by `captureChangeLog` and `determineChangeCount`. */
  function ChangesArgs(exe: string, dateRange: string, branch: Option<string>, repository: Option<string>,
                       connection: string, login: Result<string, Failure>): (r: Result<seq<Arg>, Failure>)
    ensures r.Ok? <==> branch.Some? && repository.Some? && login.Ok?
    ensures r.Ok? ==> |r.value| == 9 && r.value[8] == Arg(login.value, true)
  {
    if branch.None? then Err(NullPointer("branch"))
    else if repository.None? then Err(NullPointer("repository"))
    else if login.Err? then Err(login.error)
    else
      Ok([Arg(exe, false), Arg("cc", false), Arg("/", false), Arg("-d" + dateRange, false),
          Arg("-b" + branch.value, false), Arg("-p" + repository.value, false), Arg("-r", false),
          Arg(connection, false), Arg(login.value, true)])
  }

  /**
   * The layout of the `cc` command line, and the failures that stop it:
   * a null branch before a null repository before a missing login.
   */
  lemma ChangesArgsLayout(exe: string, last: DateTime, now: DateTime, branch: Option<string>, repository: Option<string>,
                          connection: string, login: Result<string, Failure>)
    ensures var r := ChangesArgs(exe, DateRange(last, now), branch, repository, connection, login);
            && (branch.None? ==> r == Err(NullPointer("branch")))
            && (branch.Some? && repository.None? ==> r == Err(NullPointer("repository")))
            && (branch.Some? && repository.Some? && login.Err? ==> r == Err(login.error))
            && (r.Ok? <==> branch.Some? && repository.Some? && login.Ok?)
            && (r.Ok? ==>
                  && |r.value| == 9
                  && r.value[0] == Arg(exe, false) && r.value[1] == Arg("cc", false) && r.value[2] == Arg("/", false)
                  && r.value[3] == Arg("-d" + CompactStamp(last) + ":" + CompactStamp(now), false)
                  && r.value[4] == Arg("-b" + branch.value, false) && r.value[5] == Arg("-p" + repository.value, false)
                  && r.value[6] == Arg("-r", false) && r.value[7] == Arg(connection, false)
                  && r.value[8] == Arg(login.value, true))
  {
  }

  // ---------------------------------------------------------------- the configuration object

  /** The configuration of one job's Surround SCM checkout. */
  class SurroundSCM {
    var rsaKeyPath: Option<string>
    var server: Option<string>
    var serverPort: Option<string>
    var branch: Option<string>
    var repository: Option<string>
    var credentialsId: Option<string>
    var rsaKeyFileId: Option<string>
    /** Only ever filled from a stored configuration; nothing in the plugin sets it. */
    var sscmToolName: Option<string>
    var includeOutput: bool
    var surroundScmExecutable: Option<string>
    var userName: Option<string>
    var password: Option<string>

    /** Every text setting the plugin writes is null or trimmed, non-empty text. */
    predicate Normalized()
      reads this
    {
      && FixEmptyAndTrim(rsaKeyPath) == rsaKeyPath
      && FixEmptyAndTrim(server) == server
      && FixEmptyAndTrim(serverPort) == serverPort
      && FixEmptyAndTrim(branch) == branch
      && FixEmptyAndTrim(repository) == repository
      && FixEmptyAndTrim(credentialsId) == credentialsId
      && FixEmptyAndTrim(rsaKeyFileId) == rsaKeyFileId
    }

    /** The data-bound constructor: trims each setting, blank becomes null, output is included. */
    constructor (server: Option<string>, serverPort: Option<string>, branch: Option<string>,
                 repository: Option<string>, credentialsId: Option<string>)
      ensures this.server == FixEmptyAndTrim(server) && this.serverPort == FixEmptyAndTrim(serverPort)
      ensures this.branch == FixEmptyAndTrim(branch) && this.repository == FixEmptyAndTrim(repository)
      ensures this.credentialsId == FixEmptyAndTrim(credentialsId)
      ensures rsaKeyPath.None? && rsaKeyFileId.None? && sscmToolName.None?
      ensures userName.None? && password.None? && surroundScmExecutable.None?
      ensures includeOutput
      ensures Normalized()
    {
      rsaKeyPath := None;
      rsaKeyFileId := None;
      this.server := FixEmptyAndTrim(server);
      this.serverPort := FixEmptyAndTrim(serverPort);
      this.branch := FixEmptyAndTrim(branch);
      this.repository := FixEmptyAndTrim(repository);
      this.credentialsId := FixEmptyAndTrim(credentialsId);
      includeOutput := true;
      userName := None;
      password := None;
      surroundScmExecutable := None;
      sscmToolName := None;
      new;
      FixEmptyAndTrimIdempotent(server);
      FixEmptyAndTrimIdempotent(serverPort);
      FixEmptyAndTrimIdempotent(branch);
      FixEmptyAndTrimIdempotent(repository);
      FixEmptyAndTrimIdempotent(credentialsId);
    }

    /** `setIncludeOutput`. */
    method SetIncludeOutput(included: bool)
      modifies this
      ensures includeOutput == included
      ensures rsaKeyPath == old(rsaKeyPath) && rsaKeyFileId == old(rsaKeyFileId) && server == old(server)
      ensures serverPort == old(serverPort) && branch == old(branch) && repository == old(repository)
      ensures credentialsId == old(credentialsId) && userName == old(userName) && password == old(password)
      ensures sscmToolName == old(sscmToolName) && surroundScmExecutable == old(surroundScmExecutable)
    {
      includeOutput := included;
    }

    /** `setRsaKeyPath`: trimmed, blank becomes null; keeps the configuration normalized. */
    method SetRsaKeyPath(path: Option<string>)
      modifies this
      ensures rsaKeyPath == FixEmptyAndTrim(path)
      ensures rsaKeyFileId == old(rsaKeyFileId) && server == old(server) && includeOutput == old(includeOutput)
      ensures serverPort == old(serverPort) && branch == old(branch) && repository == old(repository)
      ensures credentialsId == old(credentialsId) && userName == old(userName) && password == old(password)
      ensures sscmToolName == old(sscmToolName) && surroundScmExecutable == old(surroundScmExecutable)
      ensures old(Normalized()) ==> Normalized()
    {
      rsaKeyPath := FixEmptyAndTrim(path);
      FixEmptyAndTrimIdempotent(path);
    }

    /** `setRsaKeyFileId`: trimmed, blank becomes null; keeps the configuration normalized. */
    method SetRsaKeyFileId(id: Option<string>)
      modifies this
      ensures rsaKeyFileId == FixEmptyAndTrim(id)
      ensures rsaKeyPath == old(rsaKeyPath) && server == old(server) && includeOutput == old(includeOutput)
      ensures serverPort == old(serverPort) && branch == old(branch) && repository == old(repository)
      ensures credentialsId == old(credentialsId) && userName == old(userName) && password == old(password)
      ensures sscmToolName == old(sscmToolName) && surroundScmExecutable == old(surroundScmExecutable)
      ensures old(Normalized()) ==> Normalized()
    {
      rsaKeyFileId := FixEmptyAndTrim(id);
      FixEmptyAndTrimIdempotent(id);
    }

    /** The connection argument of this configuration. */
    function Connection(env: Environment): (a: string)
      reads this
      ensures StartsWith(a, "-z")
    {
      ServerConnection(rsaKeyFileId, rsaKeyPath, server, serverPort, env)
    }

    /** The login argument of this configuration. */
    function Login(env: Environment): (r: Result<string, Failure>)
      reads this
      ensures r.Ok? ==> StartsWith(r.value, "-y")
      ensures r.Err? ==> r.error == MissingCredential(credentialsId)
    {
      UserLogin(credentialsId, userName, password, env)
    }

    /**
     * The command line `checkout` builds, one `add` after another. `exe` is
     * the resolved client, `now` the current time, printed as "yyyyMMddHH:mm:ss".
     */
    method CheckoutCommand(exe: string, workspace: string, now: DateTime, env: Environment)
      returns (r: Result<seq<Arg>, Failure>)
      ensures r == CheckoutArgs(exe, branch, repository, workspace, ColonStamp(now), includeOutput,
                                Connection(env), Login(env))
    {
      var branch, repository, includeOutput := this.branch, this.repository, this.includeOutput;
      var connection, login := Connection(env), Login(env);
      var stamp := ColonStamp(now);
      var cmd := ArgumentList([]);
      cmd := cmd.Add(exe);
      cmd := cmd.Add("get");
      cmd := cmd.Add("/");
      cmd := cmd.Add("-wreplace");
      if branch.None? {
        return Err(NullPointer("branch"));
      }
      cmd := cmd.Add("-b" + branch.value);
      if repository.None? {
        return Err(NullPointer("repository"));
      }
      cmd := cmd.Add("-p" + repository.value);
      cmd := cmd.Add("-d" + workspace);
      cmd := cmd.Add("-r");
      cmd := cmd.Add("-s" + stamp);
      ghost var head := cmd.args;
      assert head == [Arg(exe, false), Arg("get", false), Arg("/", false), Arg("-wreplace", false),
                      Arg("-b" + branch.value, false), Arg("-p" + repository.value, false), Arg("-d" + workspace, false),
                      Arg("-r", false), Arg("-s" + stamp, false)];
      if !includeOutput {
        cmd := cmd.Add("-q");
      }
      ghost var quiet := if includeOutput then [] else [Arg("-q", false)];
      assert cmd.args == head + quiet;
      cmd := cmd.Add(connection);
      if login.Err? {
        return Err(login.error);
      }
      cmd := cmd.AddMasked(login.value);
      assert cmd.args == head + quiet + [Arg(connection, false), Arg(login.value, true)];
      r := Ok(cmd.args);
    }

    /** The `cc` command line of `captureChangeLog` and `determineChangeCount`, one `add` after another. */
    method ChangesCommand(exe: string, last: DateTime, now: DateTime, env: Environment)
      returns (r: Result<seq<Arg>, Failure>)
      ensures r == ChangesArgs(exe, DateRange(last, now), branch, repository, Connection(env), Login(env))
    {
      var branch, repository := this.branch, this.repository;
      var connection, login := Connection(env), Login(env);
      var dateRange := CompactStamp(last);
      dateRange := dateRange + ":";
      dateRange := dateRange + CompactStamp(now);
      assert dateRange == DateRange(last, now);
      var cmd := ArgumentList([]);
      cmd := cmd.Add(exe);
      cmd := cmd.Add("cc");
      cmd := cmd.Add("/");
      cmd := cmd.Add("-d" + dateRange);
      if branch.None? {
        return Err(NullPointer("branch"));
      }
      cmd := cmd.Add("-b" + branch.value);
      if repository.None? {
        return Err(NullPointer("repository"));
      }
      cmd := cmd.Add("-p" + repository.value);
      cmd := cmd.Add("-r");
      cmd := cmd.Add(connection);
      if login.Err? {
        return Err(login.error);
      }
      cmd := cmd.AddMasked(login.value);
      assert cmd.args == [Arg(exe, false), Arg("cc", false), Arg("/", false), Arg("-d" + dateRange, false),
                          Arg("-b" + branch.value, false), Arg("-p" + repository.value, false), Arg("-r", false),
                          Arg(connection, false), Arg(login.value, true)];
      r := Ok(cmd.args);
    }

    /**
     * `compareRemoteRevisionWith`: the baseline must be a state of this
     * plugin, any other kind fails the cast; the changes from its date to
     * `now` are counted with the `cc` command, and the count becomes the verdict.
     */
    method CompareRemoteRevisionWith(baseline: object, exe: string, now: Revisions.Date, calendar: int -> DateTime,
                                     env: Environment, output: seq<string>, parse: string -> Option<Double>)
      returns (r: Result<PollingResult, Failure>)
      ensures !(baseline is Revisions.RevisionState) ==> r == Err(ClassCast("SurroundSCMRevisionState"))
      ensures baseline is Revisions.RevisionState ==>
                var last := (baseline as Revisions.RevisionState).buildDate.millis;
                r == Poll(ChangesArgs(exe, DateRange(calendar(last), calendar(now.millis)), branch, repository,
                                      Connection(env), Login(env)), output, parse)
    {
      if !(baseline is Revisions.RevisionState) {
        return Err(ClassCast("SurroundSCMRevisionState"));
      }
      var state := baseline as Revisions.RevisionState;
      var lastBuild := state.GetDate();
      var command := ChangesCommand(exe, calendar(lastBuild.millis), calendar(now.millis), env);
      r := Poll(command, output, parse);
    }

    /**
     * What `checkout` leaves behind. Its `get` command line is built first,
     * stamped with `now`; a failure to build it escapes. Otherwise a state
     * (`now`, build number) is recorded only when the client exits with 0.
     * Then, when a change-log file is wanted, the changes since the
     * baseline's date are asked for, from the epoch when the baseline is not
     * a state of this plugin.
     */
    method Checkout(exe: string, workspace: string, now: Revisions.Date, env: Environment, exitCode: int,
                    buildNumber: int, baseline: object?, changeLogWanted: bool, calendar: int -> DateTime)
      returns (failure: Option<Failure>, recorded: Revisions.RevisionState?, changeLogRange: Option<string>)
      ensures var command := CheckoutArgs(exe, branch, repository, workspace, ColonStamp(calendar(now.millis)),
                                          includeOutput, Connection(env), Login(env));
              && failure == (if command.Err? then Some(command.error) else None)
              && (recorded != null <==> command.Ok? && exitCode == 0)
              && (changeLogRange.Some? <==> command.Ok? && exitCode == 0 && changeLogWanted)
      ensures recorded != null ==> fresh(recorded) && recorded.buildDate.millis == now.millis
      ensures recorded != null ==> recorded.buildNumber == buildNumber
      ensures changeLogRange.Some? ==>
                var last := if baseline is Revisions.RevisionState then (baseline as Revisions.RevisionState).buildDate.millis else 0;
                changeLogRange.value == DateRange(calendar(last), calendar(now.millis))
    {
      recorded := null;
      changeLogRange := None;
      var command := CheckoutCommand(exe, workspace, calendar(now.millis), env);
      if command.Err? {
        return Some(command.error), recorded, changeLogRange;
      }
      failure := None;
      if exitCode == 0 {
        var lastBuildDate := new Revisions.Date(now.millis);
        lastBuildDate.SetTime(0);
        if baseline is Revisions.RevisionState {
          var state := baseline as Revisions.RevisionState;
          lastBuildDate := state.GetDate();
        }
        recorded := new Revisions.RevisionState(now, buildNumber);
        if changeLogWanted {
          changeLogRange := Some(DateRange(calendar(lastBuildDate.millis), calendar(now.millis)));
        }
      }
    }

    /** `calcRevisionsFromBuild`: the state of a finished build is its time and number. */
    static method CalcRevisionsFromBuild(buildTime: Revisions.Date, buildNumber: int) returns (s: Revisions.RevisionState)
      ensures fresh(s) && s.buildDate.millis == buildTime.millis && s.buildNumber == buildNumber
    {
      s := new Revisions.RevisionState(buildTime, buildNumber);
    }

    /**
     * `resolveSscmTool`: the installation named by the stored tool name, else
     * the default installation. A null descriptor stands for Jenkins not
     * running; looking a name up then throws, the default lookup gives null.
     */
    method ResolveSscmTool(descriptor: Tools.Descriptor?, isWindows: bool) returns (r: Result<Option<Tools.Tool>, Failure>)
      modifies descriptor
      ensures descriptor == null && NonEmpty(sscmToolName) ==> r == Err(NullPointer("Jenkins"))
      ensures descriptor == null && !NonEmpty(sscmToolName) ==> r == Ok(None)
      ensures descriptor != null ==>
                r == Ok(Some(ResolvedTool(sscmToolName, old(descriptor.installations), isWindows)))
      ensures descriptor != null ==>
                descriptor.installations == Tools.Initialized(old(descriptor.installations), isWindows)
    {
      if !NonEmpty(sscmToolName) {
        var tool := Tools.GetDefaultInstallation(descriptor, isWindows);
        return Ok(tool);
      }
      if descriptor == null {
        return Err(NullPointer("Jenkins"));
      }
      var tool := descriptor.GetInstallation(sscmToolName);
      if tool.None? {
        tool := Tools.GetDefaultInstallation(descriptor, isWindows);
      }
      return Ok(tool);
    }
  }

  /** The installation a job uses while Jenkins runs. */
  function ResolvedTool(toolName: Option<string>, installations: seq<Tools.Tool>, isWindows: bool): (t: Tools.Tool)
    ensures NonEmpty(toolName) && t.name != toolName.value ==> t == Tools.DefaultInstallation(installations, isWindows)
  {
    if !NonEmpty(toolName) then Tools.DefaultInstallation(installations, isWindows)
    else
      match FirstWhere(installations, Tools.HasName(toolName))
      case Some(t) => t
      case None => Tools.DefaultInstallation(installations, isWindows)
  }

  /**
   * A stored tool name that matches an installation picks the first such
   * installation; any other name falls back to the default one, so the
   * answer is always one of the installations there are after loading.
   */
  lemma ResolvedToolChoice(toolName: Option<string>, installations: seq<Tools.Tool>, isWindows: bool)
    ensures ResolvedTool(toolName, installations, isWindows) in Tools.Initialized(installations, isWindows)
    ensures !NonEmpty(toolName) ==>
              ResolvedTool(toolName, installations, isWindows) == Tools.DefaultInstallation(installations, isWindows)
    ensures NonEmpty(toolName) ==>
              forall i :: 0 <= i < |installations| && installations[i].name == toolName.value &&
                          (forall k :: 0 <= k < i ==> installations[k].name != toolName.value) ==>
                ResolvedTool(toolName, installations, isWindows) == installations[i]
    ensures NonEmpty(toolName) && (forall k :: 0 <= k < |installations| ==> installations[k].name != toolName.value) ==>
              ResolvedTool(toolName, installations, isWindows) == Tools.DefaultInstallation(installations, isWindows)
  {
    Tools.DefaultInstallationChoice(installations, isWindows);
    if NonEmpty(toolName) {
      var fits := Tools.HasName(toolName);
      FirstWhereNone(installations, fits);
      forall i | 0 <= i < |installations| && installations[i].name == toolName.value &&
                 (forall k :: 0 <= k < i ==> installations[k].name != toolName.value)
        ensures ResolvedTool(toolName, installations, isWindows) == installations[i]
      {
        FirstWhereAt(installations, fits, i);
      }
    }
  }
}
