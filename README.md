# Surround SCM plugin for Jenkins — a verified model of its core

The Surround SCM plugin lets Jenkins check out from a Surround SCM server.
It does this by running the `sscm` command line client. This project models
the plugin's core in Dafny and proves properties of the model.

- **Change-log parser and change set.** The parser skips the first line of
  the `sscm cc` output and reads each later line as seven fields. Each
  field is one skipped character, the value and a closing '>'. Lines
  written `<f1><f2>...` are read in full, and a line starting with '>'
  yields no entry. The parser builds an ordered, append-only change set
  and stops at the first "total-0" line or line it cannot read.
  Each entry knows its file, action, version, comment, date and author.
- **`sscm://` address readers** (`SSCMUtils`). An address has the form
  `sscm://server:port//branch//repository`. The readers are modelled by what
  the pattern `sscm://(.*):(.*)//(.*)//(.*)` means under `Matcher.find()`:
  - the leftmost start wins;
  - the groups are greedy;
  - a group never crosses a line terminator.
- **The SurroundSCM configuration** and the rules around the client:
  - the normalised settings (trimmed, blank becomes null);
  - how the `get` and `cc` command lines are put together, and when building
    them throws;
  - the precedence among a stored key file, a key path and server:port;
  - the precedence between a stored login and the legacy user name and
    password;
  - the two date patterns, "yyyyMMddHHmmss" and "yyyyMMddHH:mm:ss";
  - reading the change count from the first output line;
  - the polling verdict that count gives;
  - what a successful checkout records;
  - which tool installation is used.
- **The revision state**: the build date and build number. The state copies
  the date on the way in and on the way out.
- **The RSA key setting of a pipeline step**: a kind (none, path or stored
  id) and a value.
- **The pipeline step**: its constructor, its key queries and `createSCM`.
- **The tool installation**: the default tool created on first load, the
  lookup of an installation by name, and the fallback to the default.

Inputs the plugin gets from its environment become parameters of the model:
- the exit code and output lines of the `sscm` process;
- the credentials and file credentials Jenkins makes available, and whether
  there is a workspace (together an `Scm.Environment`);
- where `populateRSAKeyFile` copies the key file, or that the copy failed;
- the polling baseline, any object, which the cast may reject;
- the conversion of milliseconds to calendar fields;
- `Double.valueOf`;
- whether Jenkins is running (a null tool descriptor);
- whether the node runs Windows.

Modules, one per source file plus shared pieces:

| file | module | models |
|---|---|---|
| wrappers.dfy | Wrappers | Option and Result |
| java_text.dfy | JavaText | `String.trim`, `Util.fixEmptyAndTrim`, `indexOf`, `startsWith`, `equalsIgnoreCase` |
| lookup.dfy | Lookup | the "first element that fits" loop of every lookup |
| changelog_set.dfy | ChangeLog | SurroundSCMChangeLogSet and its entry |
| changelog_parser.dfy | ChangeLogParser | SurroundSCMChangeLogParser |
| sscm_utils.dfy | SscmUrl | SSCMUtils |
| date_stamp.dfy | Stamps | the two SimpleDateFormat patterns |
| revision_state.dfy | Revisions | SurroundSCMRevisionState and `java.util.Date` |
| rsa_key.dfy | Keys | config/RSAKey |
| surround_tool.dfy | Tools | SurroundTool |
| surround_scm.dfy | Scm | SurroundSCM |
| surround_step.dfy | Step | SurroundStep |

Three consequences of the code shape much of the model:
- **A line whose first character is '>' yields no entry and ends the
  parse.** Every field is read by skipping its first character and taking
  the text up to the next '>', and a field whose '>' comes first is
  rejected. A line whose fields each open with some other character, such
  as `<f1><f2>...`, is read in full, and anything after its seventh '>' is
  ignored (`ChangeLogParser.LeadingGreaterThanGivesNothing`,
  `ChangeLogParser.ParseRecordOfDelimited`,
  `ChangeLogParser.EnclosedRecordGivesOneEntry`).
- **A missing login is an error.** `getUserPasswordArgument` throws when
  there is neither a username/password credential under the configured id
  nor a legacy user name. That exception escapes `compareRemoteRevisionWith`
  and `checkout` (`Scm.LoginWithoutStoredCredential`, `Scm.Poll`,
  `Scm.CheckoutArgs`).
- **Validation is the pattern and nothing more.** The pattern accepts empty
  groups and any port text (`SscmUrl.ExampleEmptyServer`,
  `SscmUrl.ExampleEmptyRepository`, `SscmUrl.ComposeRoundTrip`).

## Model

| member | source | states |
|---|---|---|
| JavaText.Trim | src/main/java/hudson/scm/SurroundSCM.java:523 | `trim` never lengthens the text and leaves no character at or below U+0020 at either end |
| JavaText.TrimKeepsMiddle | src/main/java/hudson/scm/SurroundSCM.java:523 | `trim` removes only trimmable characters, at the two ends, and keeps the middle as it was |
| JavaText.TrimIdempotent | src/main/java/hudson/scm/SurroundSCM.java:523 | trimming twice gives what trimming once gives |
| JavaText.TrimOfTrimmed | src/main/java/hudson/scm/SurroundSCM.java:523 | text with nothing trimmable at either end is left unchanged |
| JavaText.FixEmptyAndTrim | src/main/java/hudson/scm/SurroundSCM.java:197-201 | null stays null; blank text becomes null; any other text becomes its non-empty trimmed form |
| JavaText.FixEmptyAndTrimIdempotent | src/main/java/hudson/scm/SurroundSCM.java:197-201 | normalising a normalised setting changes nothing |
| JavaText.IndexOf | src/main/java/hudson/scm/SurroundSCMChangeLogParser.java:38 | `indexOf` answers -1 or a position inside the text |
| JavaText.IndexOfMeaning | src/main/java/hudson/scm/SurroundSCMChangeLogParser.java:38 | `indexOf` answers the first occurrence of the character, and -1 exactly when it does not occur |
| Lookup.FirstWhere | src/main/java/hudson/scm/SurroundTool.java:116-122 | a found element is in the list and passes the test |
| Lookup.FirstWhereAt | src/main/java/hudson/scm/SurroundTool.java:116-122 | when element i passes the test and no earlier element does, element i is the one returned |
| Lookup.FirstWhereNone | src/main/java/hudson/scm/SurroundSCM.java:674-681 | the lookup gives null exactly when no element passes the test |
| ChangeLog.GetEditType | src/main/java/hudson/scm/SurroundSCMChangeLogSet.java:144-154 | delete exactly for "delete" or "remove" in any case; add exactly for "add" in any case; edit otherwise |
| ChangeLog.EditTypeIgnoresCase | src/main/java/hudson/scm/SurroundSCMChangeLogSet.java:146-150 | lower-casing or upper-casing the action never changes its edit type |
| ChangeLog.MsgLayout | src/main/java/hudson/scm/SurroundSCMChangeLogSet.java:94-99 | the message is "File: ", the file, " Action: ", the action, " Version: ", the version, " Comment: " and the comment: every value at its position, and nothing else |
| ChangeLog.Path | src/main/java/hudson/scm/SurroundSCMChangeLogSet.java:156-159 | the entry's path is its affected file |
| ChangeLog.AffectedPaths | src/main/java/hudson/scm/SurroundSCMChangeLogSet.java:130-135 | the affected paths are exactly the one affected file |
| ChangeLog.GetAuthor | src/main/java/hudson/scm/SurroundSCMChangeLogSet.java:137-142 | the author is the unknown user exactly when no user was resolved; otherwise it is that user |
| ChangeLog.BackfilledMail | src/main/java/hudson/scm/SurroundSCMChangeLogSet.java:62-77 | a non-empty address is given to a user who has no mail property, or one without an explicitly configured address; otherwise the property is unchanged |
| ChangeLog.BackfillStable | src/main/java/hudson/scm/SurroundSCMChangeLogSet.java:62-77 | back-filling never removes a property, and doing it twice is the same as doing it once |
| ChangeLog.NewEntryWithEmail | src/main/java/hudson/scm/SurroundSCMChangeLogSet.java:52-79 | the entry holds the given fields and user, and the user's mail property becomes the back-filled one |
| ChangeLog.NewEntry | src/main/java/hudson/scm/SurroundSCMChangeLogSet.java:81-92 | the entry holds the given file, comment, version, action and date, and its author is the named user |
| ChangeLog.ChangeLogSet.constructor | src/main/java/hudson/scm/SurroundSCMChangeLogSet.java:19-28 | a new change set is empty |
| ChangeLog.ChangeLogSet.IsEmptySet | src/main/java/hudson/scm/SurroundSCMChangeLogSet.java:35-38 | true exactly when the set holds no entry |
| ChangeLog.ChangeLogSet.Iterator | src/main/java/hudson/scm/SurroundSCMChangeLogSet.java:30-33 | yields the entries in the order they were added |
| ChangeLog.ChangeLogSet.AddEntry | src/main/java/hudson/scm/SurroundSCMChangeLogSet.java:40-42 | appends the entry at the end and reports success |
| ChangeLogParser.NextField | src/main/java/hudson/scm/SurroundSCMChangeLogParser.java:38-45 | one `indexOf`/`substring` step consumes the first character and the '>' besides the field and the rest; its meaning is `ChangeLogParser.NextFieldMeaning` |
| ChangeLogParser.NextFieldMeaning | src/main/java/hudson/scm/SurroundSCMChangeLogParser.java:38-45 | reading a field fails exactly when the line has no '>' or starts with '>'; otherwise the line is one skipped character, the field (without '>'), '>' and the rest |
| ChangeLogParser.NextFieldOfOpened | src/main/java/hudson/scm/SurroundSCMChangeLogParser.java:38-45 | reading a field opened by any character but '>', with no '>' in its value, gives back the value and the text after its '>' |
| ChangeLogParser.NextFieldOfEnclosed | src/main/java/hudson/scm/SurroundSCMChangeLogParser.java:38-45 | reading `<value>` followed by any text gives back the value and that text |
| ChangeLogParser.TakeFields | src/main/java/hudson/scm/SurroundSCMChangeLogParser.java:37-94 | reading n fields, when it succeeds, gives exactly n fields |
| ChangeLogParser.TakeFieldsOfEnclosed | src/main/java/hudson/scm/SurroundSCMChangeLogParser.java:37-94 | fields written as `<value>` one after another are all read back in order, whatever follows them |
| ChangeLogParser.TakeFieldsOfDelimited | src/main/java/hudson/scm/SurroundSCMChangeLogParser.java:37-94 | fields each opened by any character but '>' are all read back in order, whatever follows them |
| ChangeLogParser.ParseRecord | src/main/java/hudson/scm/SurroundSCMChangeLogParser.java:37-96 | a line starting with '>' gives no entry; its meaning is `ChangeLogParser.ParseRecordOfRendered` and `ChangeLogParser.TakeFieldsOfEnclosed` |
| ChangeLogParser.ParseRecordOfDelimited | src/main/java/hudson/scm/SurroundSCMChangeLogParser.java:37-96 | a line of seven fields opened by any characters but '>' gives the entry of those fields, whatever follows the seventh '>' |
| ChangeLogParser.ParseRecordOfRendered | src/main/java/hudson/scm/SurroundSCMChangeLogParser.java:37-96 | a line of seven `<value>` fields gives the entry with file path + "/" + name, comment, version, action, date and user |
| ChangeLogParser.LeadingDelimiterRejected | src/main/java/hudson/scm/SurroundSCMChangeLogParser.java:38-42 | a line starting with '>' yields no entry |
| ChangeLogParser.ParseBody | src/main/java/hudson/scm/SurroundSCMChangeLogParser.java:33-99 | at most one entry per line |
| ChangeLogParser.BodyInLineOrder | src/main/java/hudson/scm/SurroundSCMChangeLogParser.java:25-99 | entry k comes from line k, which was accepted; the line after the last entry, if there is one, was not accepted |
| ChangeLogParser.FirstLineIgnored | src/main/java/hudson/scm/SurroundSCMChangeLogParser.java:27-31 | no lines or a single line give no entry, and the content of the first line never matters |
| ChangeLogParser.Parse | src/main/java/hudson/scm/SurroundSCMChangeLogParser.java:25-99 | nothing from no lines, and fewer entries than lines otherwise; its meaning is `ChangeLogParser.ParseInLineOrder` |
| ChangeLogParser.ParseInLineOrder | src/main/java/hudson/scm/SurroundSCMChangeLogParser.java:25-99 | at most one entry for each line after the first; entry k is the record of line k+1, which was accepted |
| ChangeLogParser.StopAtRejected | src/main/java/hudson/scm/SurroundSCMChangeLogParser.java:33-42 | the first line that is "total-0" or malformed ends the parse; no later line is read |
| ChangeLogParser.BodyStops | src/main/java/hudson/scm/SurroundSCMChangeLogParser.java:33-42 | after the summary line, the lines from the first rejected one on contribute nothing |
| ChangeLogParser.ParseExtends | src/main/java/hudson/scm/SurroundSCMChangeLogParser.java:25-100 | more lines only add entries at the end; none is lost or reordered |
| ChangeLogParser.BodyExtends | src/main/java/hudson/scm/SurroundSCMChangeLogParser.java:25-100 | the same, for the lines after the summary line |
| ChangeLogParser.LookUp | src/main/java/hudson/scm/SurroundSCMChangeLogParser.java:38-45 | one `indexOf`/`substring` step succeeds exactly when a field can be read, and gives that field and the rest of the line |
| ChangeLogParser.ReadRecord | src/main/java/hudson/scm/SurroundSCMChangeLogParser.java:37-96 | the seven look-ups of one line give exactly the record the line specifies, or none |
| ChangeLogParser.ParseChangeLog | src/main/java/hudson/scm/SurroundSCMChangeLogParser.java:13-111 | the parse loop builds a new set holding exactly the entries specified for the lines |
| ChangeLogParser.RenderedIsNotTotal | src/main/java/hudson/scm/SurroundSCMChangeLogParser.java:34-35 | a line written as `<value>` fields is never taken for a "total-0" line |
| ChangeLogParser.LeadingGreaterThanGivesNothing | src/main/java/hudson/scm/SurroundSCMChangeLogParser.java:38-42 | the record `>src>main.c>12>edit>...` after a summary line gives an empty change set |
| ChangeLogParser.OneRenderedRecord | src/main/java/hudson/scm/SurroundSCMChangeLogParser.java:25-99 | a summary line plus one well-formed line gives exactly that line's entry |
| ChangeLogParser.EnclosedRecordGivesOneEntry | src/main/java/hudson/scm/SurroundSCMChangeLogParser.java:44-96 | `<src><main.c><12><edit>...` gives one entry for "src/main.c" with its fields |
| ChangeLogParser.TotalZeroGivesEmptySet | src/main/java/hudson/scm/SurroundSCMChangeLogParser.java:33-35 | "total-0" right after the summary line gives an empty set |
| SscmUrl.LineEnd | src/main/java/hudson/scm/SSCMUtils.java:32 | the end of the line is the first line terminator at or after the position, or the end of the text |
| SscmUrl.MatchAt | src/main/java/hudson/scm/SSCMUtils.java:49-51 | the greedy match at a start begins there and runs to the end of its line; its meaning is `SscmUrl.MatchAtIsGreedy` |
| SscmUrl.FindFrom | src/main/java/hudson/scm/SSCMUtils.java:49-51 | a match found from i starts with "sscm://" at or after i; its meaning is `SscmUrl.FindFromSound` |
| SscmUrl.Find | src/main/java/hudson/scm/SSCMUtils.java:49-51 | a match found starts with "sscm://"; its meaning is `SscmUrl.FindIsLeftmostGreedy` |
| SscmUrl.MatchAtIsGreedy | src/main/java/hudson/scm/SSCMUtils.java:32-33 | at a given start, the greedy choice is a match; it exists whenever any match at that start does; each of its separators is the last possible one |
| SscmUrl.FindFromSound | src/main/java/hudson/scm/SSCMUtils.java:49-51 | searching from i finds a match at or after i whenever one exists, and never one later than another match |
| SscmUrl.FindIsLeftmostGreedy | src/main/java/hudson/scm/SSCMUtils.java:49-51 | `find()` succeeds exactly when the pattern matches somewhere; its match starts leftmost and is greedy there |
| SscmUrl.FindStartsAtItsMatch | src/main/java/hudson/scm/SSCMUtils.java:49-51 | the match found is the greedy match at its own start |
| SscmUrl.GetServerFromUrl | src/main/java/hudson/scm/SSCMUtils.java:43-58 | "" for a URL that does not validate, else group 1; see `SscmUrl.ExtractorsShareValidation` |
| SscmUrl.GetPortFromUrl | src/main/java/hudson/scm/SSCMUtils.java:68-83 | "" for a URL that does not validate, else group 2; see `SscmUrl.ExtractorsShareValidation` |
| SscmUrl.GetBranchFromUrl | src/main/java/hudson/scm/SSCMUtils.java:93-108 | "" for a URL that does not validate, else group 3; see `SscmUrl.ExtractorsShareValidation` |
| SscmUrl.GetRepositoryFromUrl | src/main/java/hudson/scm/SSCMUtils.java:118-133 | "" for a URL that does not validate, else group 4; see `SscmUrl.ExtractorsShareValidation` |
| SscmUrl.ValidateSscmUrl | src/main/java/hudson/scm/SSCMUtils.java:141-156 | true only for a non-null URL on which the search finds a genuine match of the pattern; the converse is `SscmUrl.ExtractorsShareValidation` |
| SscmUrl.ExtractorsShareValidation | src/main/java/hudson/scm/SSCMUtils.java:43-156 | validation holds exactly for a non-null URL the pattern matches; otherwise every reader gives ""; when it holds, each reader gives its own group of the same match |
| SscmUrl.ComposeRoundTrip | src/main/java/hudson/scm/SSCMUtils.java:32-133 | `sscm://S:P//B//R` is valid and gives back S, P, B and R, provided no part has a line terminator, P has no ':' or '/', B has no '/', and R has no "//" and does not start with '/' |
| SscmUrl.NoSchemeNoMatch | src/main/java/hudson/scm/SSCMUtils.java:43-156 | text without "sscm://" is invalid and every reader gives "" |
| SscmUrl.SingleSeparatorNoMatch | src/test/java/hudson/scm/SSCMUtilsTest.java:96-97 | an address with a single "//" after the scheme is invalid and every reader gives "" |
| SscmUrl.ExampleUrl | src/test/java/hudson/scm/SSCMUtilsTest.java:15-47 | `sscm://server:4900//branch//Mainline/Path/To/Repository` is valid and gives server, 4900, branch and the repository path |
| SscmUrl.ExampleEmptyServer | src/test/java/hudson/scm/SSCMUtilsTest.java:59-68 | with no server, the server is "" and the port is still 4900 |
| SscmUrl.ExampleEmptyBranch | src/test/java/hudson/scm/SSCMUtilsTest.java:87-88 | `sscm://server:4900////Mainline/...` gives an empty branch and the whole repository path |
| SscmUrl.ExampleEmptyRepository | src/test/java/hudson/scm/SSCMUtilsTest.java:119-120 | `sscm://server:4900//branch//` is valid, with an empty repository |
| SscmUrl.ExampleMissingSeparator | src/test/java/hudson/scm/SSCMUtilsTest.java:113-114 | `sscm://server:4900//branch/Mainline/...` gives "" for branch and repository |
| Stamps.Digits | src/main/java/hudson/scm/SurroundSCM.java:188-189 | a fixed-width field is exactly that many decimal digits |
| Stamps.DigitsRoundTrip | src/main/java/hudson/scm/SurroundSCM.java:188 | the digits of a number that fits the width read back as that number |
| Stamps.CompactStamp | src/main/java/hudson/scm/SurroundSCM.java:188 | "yyyyMMddHHmmss" prints 14 decimal digits |
| Stamps.ColonStamp | src/main/java/hudson/scm/SurroundSCM.java:189 | "yyyyMMddHH:mm:ss" prints 16 characters, with colons at positions 10 and 13 |
| Stamps.ColonStampRoundTrip | src/main/java/hudson/scm/SurroundSCM.java:189 | for years below 10000 the stamp with colons loses nothing: reading its digits back gives the same six fields |
| Stamps.CompactStampRoundTrip | src/main/java/hudson/scm/SurroundSCM.java:188 | the compact stamp of printable fields reads back as the same fields |
| Stamps.DateRange | src/main/java/hudson/scm/SurroundSCM.java:419-421 | the range is 29 characters long, with the colon at position 14 |
| Stamps.DateRangeRoundTrip | src/main/java/hudson/scm/SurroundSCM.java:474-476 | the first colon of a range splits it into the two stamps, and both dates read back |
| Revisions.RevisionState.constructor | src/main/java/hudson/scm/SurroundSCMRevisionState.java:10-14 | the state keeps a new copy of the date (same time) and the build number |
| Revisions.RevisionState.GetDate | src/main/java/hudson/scm/SurroundSCMRevisionState.java:16-18 | each call gives a new Date holding the kept time |
| Revisions.RevisionState.GetBuildNumber | src/main/java/hudson/scm/SurroundSCMRevisionState.java:20-22 | gives the kept build number |
| Revisions.CopiesAreIndependent | src/main/java/hudson/scm/SurroundSCMRevisionState.java:7-18 | moving the caller's date, or the date handed out, never changes the time the state answers |
| Keys.RSAKey.constructor | src/main/java/hudson/scm/config/RSAKey.java:27-31 | a new key has no value and kind NoKey |
| Keys.RSAKey.WithValue | src/main/java/hudson/scm/config/RSAKey.java:33-41 | the value is normalised; a blank value makes the kind NoKey whatever kind was asked for; otherwise the kind is the one asked for |
| Keys.RSAKey.SetRsaKeyFileId | src/main/java/hudson/scm/config/RSAKey.java:43-47 | the value becomes the normalised id and the kind becomes ID, even for a blank id |
| Keys.RSAKey.GetRsaKeyFileId | src/main/java/hudson/scm/config/RSAKey.java:53-54 | always null |
| Keys.RSAKey.SetRsaKeyFilePath | src/main/java/hudson/scm/config/RSAKey.java:56-60 | the value becomes the normalised path and the kind becomes Path, even for a blank path |
| Keys.RSAKey.GetRsaKeyFilePath | src/main/java/hudson/scm/config/RSAKey.java:66-67 | always null |
| Keys.RSAKey.SetRsaKeyValue | src/main/java/hudson/scm/config/RSAKey.java:69-70 | stores the value as given, untrimmed, and keeps the kind |
| Keys.RSAKey.SetRsaKeyType | src/main/java/hudson/scm/config/RSAKey.java:72-73 | stores the kind and keeps the value |
| Keys.RSAKey.GetRsaKeyType | src/main/java/hudson/scm/config/RSAKey.java:75 | gives the stored kind |
| Keys.RSAKey.GetRsaKeyValue | src/main/java/hudson/scm/config/RSAKey.java:76 | gives the stored value |
| Keys.BlankIdIsNotUsable | src/main/java/hudson/scm/config/RSAKey.java:33-47 | unlike the two-argument constructor, setting a blank file id leaves kind ID with no value |
| Tools.SscmExe | src/main/java/hudson/scm/SurroundTool.java:37 | the executable is the installation's home |
| Tools.DefaultTool | src/main/java/hudson/scm/SurroundTool.java:95-96 | the created tool is named "Default", with home "sscm.exe" on Windows and "sscm" elsewhere |
| Tools.Initialized | src/main/java/hudson/scm/SurroundTool.java:88-97 | a non-empty installation list is kept; an empty one becomes the single default tool |
| Tools.InitializedIsStable | src/main/java/hudson/scm/SurroundTool.java:80-99 | after loading there is at least one installation, and loading again changes nothing |
| Tools.DefaultInstallation | src/main/java/hudson/scm/SurroundTool.java:49-67 | the default is named "Default" or is the first installation; its meaning is `Tools.DefaultInstallationChoice` |
| Tools.DefaultInstallationChoice | src/main/java/hudson/scm/SurroundTool.java:49-67 | the default is the first installation named "Default"; else the first installation; else the newly created tool; it is always one of the installations after loading |
| Tools.Descriptor.SetInstallations | src/main/java/hudson/scm/SurroundTool.java:97 | the installation list becomes the given one |
| Tools.Descriptor.GetInstallation | src/main/java/hudson/scm/SurroundTool.java:116-122 | the loop returns the first installation with the name, or null |
| Tools.OnLoaded | src/main/java/hudson/scm/SurroundTool.java:80-99 | without Jenkins nothing happens; otherwise the list becomes its loaded form |
| Tools.GetDefaultInstallation | src/main/java/hudson/scm/SurroundTool.java:49-67 | null without Jenkins; otherwise the default installation of the list as it was, and the list is left in its loaded form |
| Tools.FreshJenkinsRunsPlainSscm | src/main/java/hudson/scm/SurroundTool.java:49-67 | with no installation configured, a job runs "sscm.exe" on Windows and "sscm" elsewhere |
| Scm.Verdict | src/main/java/hudson/scm/SurroundSCM.java:327-332 | no changes exactly for a count of 0; build now exactly for a count of at least 1, NaN or +infinity; significant otherwise (between 0 and 1, negative, -infinity) |
| Scm.CountText | src/main/java/hudson/scm/SurroundSCM.java:521 | `substring(6)` throws exactly on a line shorter than 6; otherwise it gives the text after the first 6 characters |
| Scm.ChangeCount | src/main/java/hudson/scm/SurroundSCM.java:513-538 | no output means a count of 0; with output, the count fails exactly when the first line is shorter than 6 |
| Scm.CountComesFromFirstLine | src/main/java/hudson/scm/SurroundSCM.java:518-526 | the count is the parsed, trimmed text after offset 6 of the first line, or 0 when it does not parse; later lines and the first 6 characters never matter |
| Scm.TotalLineVerdict | src/main/java/hudson/scm/SurroundSCM.java:518-526 | for "total-N": a zero or unreadable N means no changes, and N of at least 1 means build now |
| Scm.Poll | src/main/java/hudson/scm/SurroundSCM.java:319-332 | a command that cannot be built fails the poll with its error; no output means no changes; otherwise the verdict of the count, or the substring error |
| Scm.Shown | src/main/java/hudson/scm/SurroundSCM.java:658 | `%s` prints text as it is (and null as "null") |
| Scm.GetCredentials | src/main/java/hudson/scm/SurroundSCM.java:672-682 | no id means no credential; a credential found is available and carries the configured id |
| Scm.GetFileCredentials | src/main/java/hudson/scm/SurroundSCM.java:684-694 | no key file id means no file credential; one found is available and carries that id |
| Scm.PopulateRsaKeyFile | src/main/java/hudson/scm/SurroundSCM.java:706-725 | no key file without a found file credential and a workspace; with both, the path the file was copied to, or null when the copy failed |
| Scm.RsaKeyFilePath | src/main/java/hudson/scm/SurroundSCM.java:737-751 | the written key file when there is a key file id and the file was written; else a non-empty key path; else null |
| Scm.ConnectionArgument | src/main/java/hudson/scm/SurroundSCM.java:649-662 | "-z" plus the key file path when there is a non-empty one; else "-z" server ":" port |
| Scm.ServerConnection | src/main/java/hudson/scm/SurroundSCM.java:649-751 | the connection argument, with the key file looked up under the key file id, always starts with "-z"; its meaning is `Scm.ConnectionUsesStoredKeyFile` and `Scm.ConnectionWithoutStoredKeyFile` |
| Scm.ConnectionUsesStoredKeyFile | src/main/java/hudson/scm/SurroundSCM.java:684-751 | the first file credential stored under the key file id, copied into the workspace, gives "-z" and the copy's path |
| Scm.ConnectionWithoutStoredKeyFile | src/main/java/hudson/scm/SurroundSCM.java:684-751 | without a key file id, a file credential under it, a workspace or a successful copy, the connection is "-z" and the key path when there is one, else "-z" server ":" port |
| Scm.ConnectionPrecedence | src/main/java/hudson/scm/SurroundSCM.java:649-662 | the stored key file beats the key path, which beats server:port |
| Scm.UserPasswordArgument | src/main/java/hudson/scm/SurroundSCM.java:615-638 | succeeds exactly with a username/password credential or a non-empty legacy user name; otherwise the error names the credential id; the argument starts with "-y" |
| Scm.CredentialBeatsLegacyLogin | src/main/java/hudson/scm/SurroundSCM.java:617-623 | a username/password credential gives "-yuser:password", whatever the legacy settings are |
| Scm.UserLogin | src/main/java/hudson/scm/SurroundSCM.java:615-682 | the login argument, with the credential looked up under the credential id, starts with "-y", and its only failure names the id; its meaning is `Scm.LoginUsesStoredCredential` and `Scm.LoginWithoutStoredCredential` |
| Scm.LoginUsesStoredCredential | src/main/java/hudson/scm/SurroundSCM.java:615-682 | the first credential stored under the credential id decides the login; a username/password one gives "-yuser:password" |
| Scm.LoginWithoutStoredCredential | src/main/java/hudson/scm/SurroundSCM.java:615-682 | with no credential id, or no credential under it, only the legacy login is left; without a legacy user name the login fails naming the id |
| Scm.LegacyLogin | src/main/java/hudson/scm/SurroundSCM.java:624-631 | without such a credential, a legacy user name gives "-yuser:password", or "-yuser" when there is no password |
| Scm.ArgumentList.Add | src/main/java/hudson/scm/SurroundSCM.java:356-370 | appends one unmasked argument |
| Scm.ArgumentList.AddMasked | src/main/java/hudson/scm/SurroundSCM.java:371 | appends one masked argument |
| Scm.CheckoutArgs | src/main/java/hudson/scm/SurroundSCM.java:356-371 | the `get` command is built exactly when branch, repository and login are present; it has 11 arguments, 12 with "-q", and ends with the masked login; see `Scm.CheckoutArgsLayout` |
| Scm.CheckoutArgsLayout | src/main/java/hudson/scm/SurroundSCM.java:356-371 | the `get` command is the exe, get, /, -wreplace, -b, -p, -d, -r and -s, then "-q" exactly when output is excluded, then the connection and the login; the login is the only masked argument |
| Scm.ChangesArgs | src/main/java/hudson/scm/SurroundSCM.java:419-433 | the `cc` command is built exactly when branch, repository and login are present; it has 9 arguments and ends with the masked login; see `Scm.ChangesArgsLayout` |
| Scm.ChangesArgsLayout | src/main/java/hudson/scm/SurroundSCM.java:419-433 | the `cc` command is the exe, cc, /, -d with the two compact stamps, -b, -p, -r, the connection and the masked login; a null branch fails before a null repository, which fails before a missing login |
| Scm.SurroundSCM.constructor | src/main/java/hudson/scm/SurroundSCM.java:191-207 | the five settings are normalised, the key settings and legacy fields are null, output is included, and the configuration is normalised |
| Scm.SurroundSCM.SetIncludeOutput | src/main/java/hudson/scm/SurroundSCM.java:170-172 | sets the flag and changes nothing else |
| Scm.SurroundSCM.SetRsaKeyPath | src/main/java/hudson/scm/SurroundSCM.java:174-177 | stores the normalised path, changes nothing else, and keeps the configuration normalised |
| Scm.SurroundSCM.SetRsaKeyFileId | src/main/java/hudson/scm/SurroundSCM.java:179-180 | stores the normalised id, changes nothing else, and keeps the configuration normalised |
| Scm.SurroundSCM.Connection | src/main/java/hudson/scm/SurroundSCM.java:649-662 | the connection argument of this configuration, which starts with "-z" |
| Scm.SurroundSCM.Login | src/main/java/hudson/scm/SurroundSCM.java:615-638 | the login argument of this configuration, which starts with "-y", and whose only failure names the configured credential id |
| Scm.SurroundSCM.CheckoutCommand | src/main/java/hudson/scm/SurroundSCM.java:348-371 | the `add` sequence builds exactly the `get` command line of the configuration, stamped "-s" and the current time as "yyyyMMddHH:mm:ss", with the connection and login looked up under the configured ids; or its first failure |
| Scm.SurroundSCM.ChangesCommand | src/main/java/hudson/scm/SurroundSCM.java:474-489 | the date range concatenation and the `add` sequence build exactly the `cc` command line, with the connection and login looked up under the configured ids; or its first failure |
| Scm.SurroundSCM.CompareRemoteRevisionWith | src/main/java/hudson/scm/SurroundSCM.java:303-333 | a baseline that is not a state of this plugin fails the cast; otherwise the verdict of the `cc` command from the baseline's date to now |
| Scm.SurroundSCM.Checkout | src/main/java/hudson/scm/SurroundSCM.java:343-395 | the `get` command line of the configuration is built first and a failure to build it escapes; exit 0 records a new state (now, build number); a change log, when wanted, covers the baseline's date (the epoch when the baseline is not a state of this plugin) to now |
| Scm.SurroundSCM.CalcRevisionsFromBuild | src/main/java/hudson/scm/SurroundSCM.java:270-284 | the state of a build is a new state with its time and number |
| Scm.SurroundSCM.ResolveSscmTool | src/main/java/hudson/scm/SurroundSCM.java:549-568 | the tool name is looked up, falling back to the default; without Jenkins, a name throws and no name gives null |
| Scm.ResolvedTool | src/main/java/hudson/scm/SurroundSCM.java:549-568 | a resolved tool that does not carry the stored name is the default installation; its meaning is `Scm.ResolvedToolChoice` |
| Scm.ResolvedToolChoice | src/main/java/hudson/scm/SurroundSCM.java:549-568 | a matching name picks the first installation of that name; a name without a match, or no name, gives the default; the result is always an installation after loading |
| Step.SettingsOf | src/main/java/hudson/scm/SurroundStep.java:46-52 | each setting is the normalised group the address reader gives |
| Step.SettingsOfComposedUrl | src/main/java/hudson/scm/SurroundStep.java:46-52 | a step whose address is composed from four plain, untrimmable parts configures exactly those parts |
| Step.SettingsOfInvalidUrl | src/main/java/hudson/scm/SurroundStep.java:46-52 | an address the pattern does not match leaves all four settings null |
| Step.SurroundStep.constructor | src/main/java/hudson/scm/SurroundStep.java:33-39 | address and credential id are normalised, and there is no key |
| Step.SurroundStep.SetRsaKey | src/main/java/hudson/scm/SurroundStep.java:41-42 | keeps the given key |
| Step.SurroundStep.HasRsaKeyConfigured | src/main/java/hudson/scm/SurroundStep.java:57-59 | false exactly for a key object of kind NoKey; having no key object counts as configured |
| Step.SurroundStep.IsUsingRsaKeyPath | src/main/java/hudson/scm/SurroundStep.java:61-63 | true exactly when there is a key object of kind Path; such a key is a configured key |
| Step.SurroundStep.IsUsingRsaKeyFileId | src/main/java/hudson/scm/SurroundStep.java:65-67 | true exactly when there is a key object of kind ID; such a key is a configured key, and never a path key |
| Step.SurroundStep.GetRsaKeyFilePath | src/main/java/hudson/scm/SurroundStep.java:81-89 | the key's value for a path key; null otherwise |
| Step.SurroundStep.GetRsaKeyFileId | src/main/java/hudson/scm/SurroundStep.java:91-98 | the key's value for an id key; null otherwise |
| Step.SurroundStep.GetCredentials | src/main/java/hudson/scm/SurroundStep.java:100-114 | no id means no credential; one found is available and carries the step's id |
| Step.SurroundStep.GetFileCredentials | src/main/java/hudson/scm/SurroundStep.java:116-130 | nothing unless the key is an id key; one found is available and carries the key's value as id |
| Step.SurroundStep.CreateScm | src/main/java/hudson/scm/SurroundStep.java:44-55 | a new configuration whose four settings are the step's address settings and whose credential id is the normalised step id; it is normalised |

## Left out

- Processes, files, logging, environment variables, and Jenkins' build and
  job objects. The exit code, the output lines of `sscm` and the available
  credentials are parameters. The temporary changes file and the change-log
  file are not modelled.
- `Double.valueOf` is a parameter (`parse`). Its None stands for a
  NumberFormatException. Floating-point parsing itself is not modelled.
- Turning milliseconds into calendar fields depends on the time zone, so it
  is a parameter (`calendar`).
- Stamps.Digits: a year of 10000 or more keeps only its last four digits.
  SimpleDateFormat prints it wider. The round trips are stated for years
  below 10000.
- `getSscmExe`: `forNode`, `forEnvironment` and `translateFor` rewrite the
  tool home per node and per environment, which needs a node and an
  environment. `workspace.mkdirs()` is I/O. The resolved executable is a
  parameter of the command builders. `Tools.SscmExe` and
  `Scm.SurroundSCM.ResolveSscmTool` cover the untranslated tool.
- `getKey` hashes the settings with `Util.getDigestOf` (a digest function).
- The deprecated SurroundSCM constructors are not modelled.
- `getDescriptor`, `createChangeLogParser`, `requiresWorkspaceForPolling`,
  `supportsPolling`, the display names, `RSAKey.getName`, `doCheckHome` and
  the `doFill*Items` list boxes are not modelled. They are constants or
  form helpers.
- The plain getters of SurroundSCM and SurroundStep are the model's fields.
- `descriptor.save()` in `onLoaded` persists to disk.
- A null descriptor in the model means only that Jenkins is not running.
  Jenkins running without a SurroundTool descriptor is left out: then
  `getInstallations` catches the NullPointerException and answers an empty
  list, and the next step throws a NullPointerException on the missing
  descriptor (`setInstallations` at SurroundTool.java:97,
  `getInstallation` at SurroundTool.java:55).
- Step.SurroundStep.CreateScm stops after the constructor.
  `sscm.setRsaKey(rsaKey)` calls a method that SurroundSCM.java does not
  define, so the step's key is not passed on.
- Scm.SurroundSCM.Checkout does not run `captureChangeLog`. Its result is
  the date range of the `cc` command, and its boolean result is ignored by
  `checkout`. The `cc` command line itself is `Scm.SurroundSCM.ChangesCommand`.
- ChangeLog.NewEntry: the author is the user whose id is the parsed user
  text. `User.get` resolves that text through Jenkins' user registry, which
  may map it to another user or create one; the registry is not modelled.
- Java strings are UTF-16 code units, the model's strings are sequences of
  characters. `substring(6)` (SurroundSCM.java:521), the field reader's
  `substring(1, end)` (SurroundSCMChangeLogParser.java:44) and `indexOf`
  count code units, so a change-log line
  or an `sscm` output line with characters outside the Basic Multilingual
  Plane is counted differently.
- ChangeLog.NewEntryWithEmail models the user's mail property only;
  `user.addProperty` is a direct update, and its IOException, which is
  only logged, is left out.
- `hasExplicitlyConfiguredAddress` belongs to the Mailer plugin. It is
  modelled as "the address is not blank after trimming".
- `equalsIgnoreCase` is modelled with ASCII case folding. The words it is
  compared with are ASCII, and no character outside ASCII folds onto their
  letters.
- The SSCMUtils helpers after line 156 (the node and workspace lookups) are
  not part of the core.
- `hudson.util.ArgumentListBuilder` is a value in the model. Each builder is
  made, filled and handed over inside a single call, so there is no aliasing
  to lose.
- ChangeLogParser.ReadRecord makes the seven field look-ups the seven rounds
  of one loop. The source writes them out one after another.
