/** The two NVS keys that say which update is being attempted, and what a boot makes of them. */
module AttemptMarker {
  import opened Options

  // A version that was running, and the version installed from it.
  datatype Evidence = Evidence(source: string, target: string)

  datatype Keys = Keys(source: Option<string>, target: Option<string>)

  const NO_KEYS := Keys(None, None)

  // How far writing the marker gets: the keys are written one after the other.
  datatype SaveResult = Neither | SourceOnly | Both

  function Marker(k: Keys): Option<Evidence> {
    if k.source.Some? && k.target.Some? then Some(Evidence(k.source.value, k.target.value)) else None
  }

  function MarkerSaved(k: Keys, source: string, target: string, result: SaveResult): Keys {
    match result
    case Neither => k
    case SourceOnly => k.(source := Some(source))
    case Both => Keys(Some(source), Some(target))
  }

  function Erased(k: Keys, clears: bool): Keys {
    if clears then NO_KEYS else k
  }

  // The source runs again and is not on trial: its target has been reverted.
  predicate Reverted(e: Evidence, version: string, pending: bool) {
    !pending && version == e.source && e.source != e.target
  }

  function Detected(k: Keys, version: string, pending: bool): Option<Evidence> {
    match Marker(k)
    case None => None
    case Some(e) => if Reverted(e, version, pending) then Some(e) else None
  }

  // A boot discards a marker that fits neither a trial under way nor a reverted one.
  function KeptByBoot(k: Keys, version: string, pending: bool, clears: bool): Keys {
    match Marker(k)
    case None => k
    case Some(e) =>
      if (pending && version == e.target) || Reverted(e, version, pending) then k else Erased(k, clears)
  }

  /** What a boot makes of a marker that names two versions. It stays while the second is on trial, and once the first
      runs again without one, which is reported. Any other boot, of a confirmed second version for one, discards it, so
      that no later boot can take it for a rollback. */
  lemma BootReadsMarker(e: Evidence, version: string, pending: bool, clears: bool)
    ensures var k := Keys(Some(e.source), Some(e.target));
            var trial, reverted := pending && version == e.target, !pending && version == e.source != e.target;
            && Detected(k, version, pending) == (if reverted then Some(e) else None)
            && KeptByBoot(k, version, pending, clears) == (if trial || reverted || !clears then k else NO_KEYS)
  {
  }

  /** Half a marker is none: nothing is reported of it, and no boot touches it. */
  lemma HalfMarkerIsNone(k: Keys, version: string, pending: bool, clears: bool)
    requires k.source == None || k.target == None
    ensures Detected(k, version, pending) == None && KeptByBoot(k, version, pending, clears) == k
  {
  }
}
