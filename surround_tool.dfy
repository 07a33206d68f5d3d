/**
 * SurroundTool: the configured installations of the `sscm` command line
 * client, held by the tool descriptor, the default one created on first
 * load, and the choice of the installation a job uses.
 */
module Tools {
  import opened Wrappers
  import opened Lookup

  /** `SurroundTool.DEFAULT_NAME`. */
  const DefaultName: string := "Default"

  /** One installation: its name and its home, the path of the executable. */
  datatype Tool = Tool(name: string, home: string)

  /** `getSscmExe`: the executable is the installation's home. */
  function SscmExe(t: Tool): (exe: string)
    ensures exe == t.home
  {
    t.home
  }

  /** The test `getInstallation` applies: `s.getName().equals(name)`, false for a null name. */
  function HasName(name: Option<string>): Tool -> bool
  {
    (t: Tool) => name == Some(t.name)
  }

  /** The installation `onLoaded` creates: "sscm.exe" on Windows, "sscm" elsewhere. */
  function DefaultTool(isWindows: bool): (t: Tool)
    ensures t.name == DefaultName
    ensures t.home == (if isWindows then "sscm.exe" else "sscm")
  {
    Tool(DefaultName, if isWindows then "sscm.exe" else "sscm")
  }

  /** The installation list after `onLoaded`: kept when non-empty, else the single default tool. */
  function Initialized(installations: seq<Tool>, isWindows: bool): (r: seq<Tool>)
    ensures |installations| > 0 ==> r == installations
    ensures |installations| == 0 ==> r == [DefaultTool(isWindows)]
  {
    if |installations| > 0 then installations else [DefaultTool(isWindows)]
  }

  /** `onLoaded` is idempotent and always leaves at least one installation. */
  lemma InitializedIsStable(installations: seq<Tool>, isWindows: bool)
    ensures |Initialized(installations, isWindows)| > 0
    ensures Initialized(Initialized(installations, isWindows), isWindows) == Initialized(installations, isWindows)
  {
  }

  /**
   * What `getDefaultInstallation` answers once Jenkins is running: the first
   * installation named "Default", else the first installation, else the tool
   * that `onLoaded` has just created.
   */
  function DefaultInstallation(installations: seq<Tool>, isWindows: bool): (t: Tool)
    ensures t.name == DefaultName || (installations != [] && t == installations[0])
  {
    match FirstWhere(installations, HasName(Some(DefaultName)))
    case Some(named) => named
    case None => Initialized(installations, isWindows)[0]
  }

  /** The three cases of `getDefaultInstallation`, and the answer is always a configured tool afterwards. */
  lemma DefaultInstallationChoice(installations: seq<Tool>, isWindows: bool)
    ensures DefaultInstallation(installations, isWindows) in Initialized(installations, isWindows)
    ensures forall i :: 0 <= i < |installations| && installations[i].name == DefaultName &&
                        (forall k :: 0 <= k < i ==> installations[k].name != DefaultName) ==>
              DefaultInstallation(installations, isWindows) == installations[i]
    ensures (forall k :: 0 <= k < |installations| ==> installations[k].name != DefaultName) && |installations| > 0 ==>
              DefaultInstallation(installations, isWindows) == installations[0]
    ensures installations == [] ==> DefaultInstallation(installations, isWindows) == DefaultTool(isWindows)
  {
    var fits := HasName(Some(DefaultName));
    FirstWhereNone(installations, fits);
    assert forall k :: 0 <= k < |installations| ==> (fits(installations[k]) <==> installations[k].name == DefaultName);
    forall i | 0 <= i < |installations| && installations[i].name == DefaultName &&
               (forall k :: 0 <= k < i ==> installations[k].name != DefaultName)
      ensures DefaultInstallation(installations, isWindows) == installations[i]
    {
      FirstWhereAt(installations, fits, i);
    }
  }

  /** The tool descriptor, `SurroundTool.DescriptorImpl`, which owns the installation list. */
  class Descriptor {
    var installations: seq<Tool>

    constructor (installations: seq<Tool>)
      ensures this.installations == installations
    {
      this.installations := installations;
    }

    /** `setInstallations`. */
    method SetInstallations(tools: seq<Tool>)
      modifies this
      ensures installations == tools
    {
      installations := tools;
    }

    /** `getInstallation(name)`: a for-each over the installations that returns on the first name match. */
    method GetInstallation(name: Option<string>) returns (r: Option<Tool>)
      ensures r == FirstWhere(installations, HasName(name))
    {
      var i := 0;
      while i < |installations|
        invariant 0 <= i <= |installations|
        invariant forall k :: 0 <= k < i ==> !HasName(name)(installations[k])
      {
        if name == Some(installations[i].name) {
          FirstWhereAt(installations, HasName(name), i);
          return Some(installations[i]);
        }
        i := i + 1;
      }
      FirstWhereNone(installations, HasName(name));
      return None;
    }
  }

  /**
   * `onLoaded`. A null descriptor stands for Jenkins not running, in which
   * case nothing happens; otherwise an empty list is replaced by the single
   * default tool and a non-empty one is left alone.
   */
  method OnLoaded(descriptor: Descriptor?, isWindows: bool)
    modifies descriptor
    ensures descriptor != null ==> descriptor.installations == Initialized(old(descriptor.installations), isWindows)
  {
    if descriptor == null {
      return;
    }
    if |descriptor.installations| > 0 {
      return;
    }
    var tool := DefaultTool(isWindows);
    descriptor.SetInstallations([tool]);
  }

  /**
   * `getDefaultInstallation`: null when Jenkins is not running, else the
   * installation named "Default", else the first one, else the one
   * `onLoaded` creates.
   */
  method GetDefaultInstallation(descriptor: Descriptor?, isWindows: bool) returns (r: Option<Tool>)
    modifies descriptor
    ensures descriptor == null ==> r.None?
    ensures descriptor != null ==> r == Some(DefaultInstallation(old(descriptor.installations), isWindows))
    ensures descriptor != null ==> descriptor.installations == Initialized(old(descriptor.installations), isWindows)
  {
    if descriptor == null {
      return None;
    }
    var tool := descriptor.GetInstallation(Some(DefaultName));
    if tool.Some? {
      return tool;
    }
    if |descriptor.installations| > 0 {
      return Some(descriptor.installations[0]);
    }
    OnLoaded(descriptor, isWindows);
    return Some(descriptor.installations[0]);
  }

  /** On a fresh Jenkins the job runs "sscm.exe" on Windows and "sscm" elsewhere. */
  lemma FreshJenkinsRunsPlainSscm(isWindows: bool)
    ensures SscmExe(DefaultInstallation([], isWindows)) == (if isWindows then "sscm.exe" else "sscm")
  {
  }
}
