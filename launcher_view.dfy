/**
 * The update check of `maya_umbrella_launcher/launcher_view.py`: offer a
 * download when the latest release tag is greater, as a string, than the
 * greatest local version, or than `v0.0.0` when none is installed.
 */
module LauncherView {
  import opened StringOrder

  const NoVersion := "v0.0.0"

  /** `latest_version > (max(versions) if versions else 'v0.0.0')`. */
  function OffersUpdate(latest: string, versions: seq<string>): bool
  {
    Less(if versions != [] then MaxOf(versions) else NoVersion, latest)
  }

  /**
   * An update is offered exactly when the latest tag is above every local
   * version (and above `v0.0.0` when there is none); so an offered tag is
   * never one already installed.
   */
  lemma OffersUpdateExactly(latest: string, versions: seq<string>)
    ensures OffersUpdate(latest, versions) <==>
      (versions == [] && Less(NoVersion, latest)) ||
      (versions != [] && forall i :: 0 <= i < |versions| ==> Less(versions[i], latest))
    ensures OffersUpdate(latest, versions) ==> latest !in versions
  {
    if versions != [] {
      var m := MaxOf(versions);
      MaxOfIsMax(versions);
      if Less(m, latest) {
        forall i | 0 <= i < |versions|
          ensures Less(versions[i], latest)
        {
          LessTotal(versions[i], m);
          if versions[i] != m {
            LessTransitive(versions[i], m, latest);
          }
        }
      }
      if latest in versions {
        var j :| 0 <= j < |versions| && versions[j] == latest;
        LessIrreflexive(latest);
      }
    }
  }
}
