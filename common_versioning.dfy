// core/common/versioning.py: CAS-like exact-version guard.
module Versioning {
  import opened OptionType

  datatype VersionCheckResult = VersionCheckResult(ok: bool, reason: string)

  /** Accept only an incoming version equal to the current one. */
  function RequireExact(currentVersion: int, incomingVersion: int): (r: VersionCheckResult)
    ensures r.ok <==> incomingVersion >= 0 && incomingVersion == currentVersion
    ensures incomingVersion < 0 ==> r.reason == "VERSION_INVALID_NEGATIVE"
    ensures 0 <= incomingVersion < currentVersion ==> r.reason == "VERSION_STALE_REJECTED"
    ensures 0 <= incomingVersion && currentVersion < incomingVersion ==> r.reason == "VERSION_FUTURE_REJECTED"
    ensures r.ok ==> r.reason == "VERSION_MATCH"
  {
    if incomingVersion < 0 then VersionCheckResult(false, "VERSION_INVALID_NEGATIVE")
    else if incomingVersion != currentVersion then
      (if incomingVersion < currentVersion then VersionCheckResult(false, "VERSION_STALE_REJECTED")
       else VersionCheckResult(false, "VERSION_FUTURE_REJECTED"))
    else VersionCheckResult(true, "VERSION_MATCH")
  }

  /** The next version; a negative current version is an error (None). */
  function NextVersion(currentVersion: int): (r: Option<int>)
    ensures r.Some? <==> currentVersion >= 0
    ensures r.Some? ==> r.value == currentVersion + 1
  {
    if currentVersion < 0 then None else Some(currentVersion + 1)
  }

  /** Once a version has been bumped, a writer still holding the old one is
      rejected as stale, and the new one is accepted. */
  lemma {:induction false} BumpMakesOldStale(v: int)
    requires v >= 0
    ensures RequireExact(NextVersion(v).value, v) == VersionCheckResult(false, "VERSION_STALE_REJECTED")
    ensures RequireExact(NextVersion(v).value, NextVersion(v).value).ok
  {
  }
}
