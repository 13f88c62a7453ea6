/** Choosing the game version to generate data for: the command-line
    argument if one was given and is non-empty, otherwise the last entry of
    the data package's supported-version list; the run goes on only if the
    chosen value is exactly one of the supported versions. */
module Versions {
  import opened JsValues

  datatype Option<T> = None | Some(value: T)

  /** The outcome of the version check: the version to load, or the value
      that was rejected together with the list it was checked against (both
      are printed before the process exits with status 1). */
  datatype Resolution =
    | Supported(version: string)
    | Unsupported(rejected: JsVal, available: seq<string>)

  /** `process.argv[2]`: a string when an argument was given, else undefined. */
  function ArgValue(arg: Option<string>): JsVal {
    match arg
    case Some(s) => Str(s)
    case None => Undefined
  }

  /** `availableVersions[availableVersions.length - 1]`: reading index -1 of
      an empty array gives undefined. */
  function LastEntry(available: seq<string>): JsVal {
    if available == [] then Undefined else Str(available[|available| - 1])
  }

  /** `availableVersions.includes(v)`: SameValueZero against each entry, which
      for a list of strings holds exactly for a string equal to an entry. */
  function Includes(available: seq<string>, v: JsVal): (b: bool)
    ensures b <==> v.Str? && v.s in available
  {
    if available == [] then false
    else v == Str(available[0]) || Includes(available[1..], v)
  }

  /** `requestedVersion || availableVersions[availableVersions.length - 1]`:
      a non-empty argument is taken as given; a missing or empty one selects
      the last supported version, or undefined when there is none. */
  function SelectVersion(arg: Option<string>, available: seq<string>): (v: JsVal)
    ensures arg.Some? && arg.value != "" ==> v == Str(arg.value)
    ensures (arg.None? || arg.value == "") && available != [] ==>
              v == Str(available[|available| - 1])
    ensures (arg.None? || arg.value == "") && available == [] ==> v == Undefined
  {
    Or(ArgValue(arg), LastEntry(available))
  }

  /** The version check that guards the whole run. */
  function Resolve(arg: Option<string>, available: seq<string>): (r: Resolution)
    ensures r.Supported? <==> Includes(available, SelectVersion(arg, available))
    ensures r.Supported? ==>
              r.version in available && SelectVersion(arg, available) == Str(r.version)
    ensures r.Unsupported? ==>
              r.rejected == SelectVersion(arg, available) && r.available == available
  {
    var version := SelectVersion(arg, available);
    if Includes(available, version) then Supported(version.s)
    else Unsupported(version, available)
  }

  /** An explicit, non-empty version is accepted exactly when it is one of
      the supported versions, and is then used unchanged. */
  lemma ExplicitVersion(v: string, available: seq<string>)
    requires v != ""
    ensures Resolve(Some(v), available).Supported? <==> v in available
    ensures v in available ==> Resolve(Some(v), available) == Supported(v)
    ensures v !in available ==> Resolve(Some(v), available) == Unsupported(Str(v), available)
  {
  }

  /** With no argument, or an empty one, the latest supported version is used,
      and the check cannot fail when the list is non-empty. */
  lemma LatestVersion(arg: Option<string>, available: seq<string>)
    requires arg.None? || arg.value == ""
    requires available != []
    ensures Resolve(arg, available) == Supported(available[|available| - 1])
  {
  }

  /** With an empty supported-version list every run is rejected. */
  lemma EmptyListRejects(arg: Option<string>)
    ensures Resolve(arg, []).Unsupported?
  {
  }

  /** An illustration of ExplicitVersion: there is no prefix or fuzzy
      matching, so a proper prefix (`<` on strings) of a supported version
      that is not itself in the list is rejected. */
  lemma NoPrefixMatch(v: string, available: seq<string>, i: nat)
    requires i < |available| && v != "" && v < available[i] && v !in available
    ensures Resolve(Some(v), available).Unsupported?
  {
  }
}
