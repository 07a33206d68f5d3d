/**
 * SurroundSCMRevisionState: the (build date, build number) pair Jenkins keeps
 * for a build, and the mutable `java.util.Date` it is built from. The state
 * copies the date on the way in and on the way out, so nobody holding a Date
 * can reach the one it keeps.
 */
module Revisions {

  /** `java.util.Date`: a mutable count of milliseconds since the epoch. */
  class Date {
    var millis: int

    /** `new Date(time)`. */
    constructor (millis: int)
      ensures this.millis == millis
    {
      this.millis := millis;
    }

    /** `setTime`. */
    method SetTime(time: int)
      modifies this
      ensures millis == time
    {
      millis := time;
    }
  }

  /** The revision state of one build; both fields are final. */
  class RevisionState {
    const buildDate: Date
    const buildNumber: int

    /** Keeps a private copy of the date and the build number. */
    constructor (buildDate: Date, buildNumber: int)
      ensures fresh(this.buildDate)
      ensures this.buildDate.millis == buildDate.millis
      ensures this.buildNumber == buildNumber
    {
      this.buildDate := new Date(buildDate.millis);
      this.buildNumber := buildNumber;
    }

    /** `getDate`: a new Date with the kept time, never the kept object itself. */
    method GetDate() returns (d: Date)
      ensures fresh(d)
      ensures d.millis == buildDate.millis
    {
      d := new Date(buildDate.millis);
    }

    /** `getBuildNumber`. */
    function GetBuildNumber(): (n: int)
      ensures n == buildNumber
    {
      buildNumber
    }
  }

  /**
   * The copies at both ends make the state immune to its callers: after the
   * caller moves its own date and the date it got back, the state still
   * answers the time it was built with.
   */
  method CopiesAreIndependent(arg: Date, buildNumber: int, moved: int) returns (kept: int, number: int)
    modifies arg
    ensures kept == old(arg.millis)
    ensures number == buildNumber
    ensures arg.millis == moved
  {
    var state := new RevisionState(arg, buildNumber);
    arg.SetTime(moved);
    var handedOut := state.GetDate();
    handedOut.SetTime(moved + 1);
    var again := state.GetDate();
    kept := again.millis;
    number := state.GetBuildNumber();
  }
}
