/** The actions of the pipeline that write the status of the CR. */
module Status {
  import opened Wrappers
  import opened PlatformConfig

  const KUBERAY := "KubeRay"
  const KUBERAY_REPO := "https://github.com/opendatahub-io/kuberay"
  const PLATFORM := "platform"

  datatype Release = Release(name: string, version: string, repoUrl: string)

  datatype RayStatus = RayStatus(
    distribution: Distribution,
    releases: seq<Release>,
    available: bool,
    degraded: bool,
    observedGeneration: nat)

  /******* Releases *******/

  /** desiredModuleReleases */
  function ModuleReleases(kubeRayVersion: string): seq<Release> {
    if kubeRayVersion == "" then [] else [Release(KUBERAY, kubeRayVersion, KUBERAY_REPO)]
  }

  /** The framework's SetPlatformRelease: replaces the entry of that name, or adds one at the end. */
  function WithPlatform(releases: seq<Release>, version: string): seq<Release> {
    if releases == [] then [Release(PLATFORM, version, "")]
    else if releases[0].name == PLATFORM then [releases[0].(version := version)] + releases[1..]
    else [releases[0]] + WithPlatform(releases[1..], version)
  }

  /** At most one entry of each name. */
  ghost predicate NamesDiffer(releases: seq<Release>) {
    forall i, j :: 0 <= i < j < |releases| ==> releases[i].name != releases[j].name
  }

  ghost predicate HasRelease(releases: seq<Release>, name: string, version: string) {
    exists i :: 0 <= i < |releases| && releases[i].name == name && releases[i].version == version
  }

  /******* What the actions make of a status *******/

  function Reset(status: RayStatus, kubeRayVersion: string): RayStatus {
    status.(releases := ModuleReleases(kubeRayVersion))
  }

  function Distributed(semver: Semver, status: RayStatus, configs: Configs, ns: string): RayStatus {
    if !status.available then status
    else
      var said := Denotes(semver, Lookup(configs, ns));
      if said.Some? then status.(distribution := said.value) else status
  }

  function Stamped(status: RayStatus, removed: bool, version: string): RayStatus {
    if removed || !status.available || version == "" then status
    else status.(releases := WithPlatform(status.releases, version))
  }

  function Settled(status: RayStatus, generation: nat): RayStatus {
    status.(degraded := false, observedGeneration := generation)
  }

  /** The working copy of the CR that a reconcile passes from action to action. */
  class Request {
    const ns: string
    const generation: nat
    const removedState: bool // spec.managementState is Removed
    var removed: bool        // the extension that managementStateAction leaves for the others
    var generated: bool
    var status: RayStatus

    constructor (ns: string, generation: nat, removedState: bool, status: RayStatus)
      ensures this.ns == ns && this.generation == generation && this.removedState == removedState
      ensures this.status == status && !removed && !generated
    {
      this.ns, this.generation, this.removedState, this.status := ns, generation, removedState, status;
      removed, generated := false, false;
    }

    method ManagementStateAction()
      modifies this`removed, this`generated
      ensures removed == removedState
      ensures generated == (old(generated) || removedState)
    {
      removed := removedState;
      if removedState {
        generated := true;
      }
    }

    method ReleasesAction(kubeRayVersion: string)
      modifies this`status
      ensures status == Reset(old(status), kubeRayVersion)
    {
      status := status.(releases := if kubeRayVersion == "" then [] else [Release(KUBERAY, kubeRayVersion, KUBERAY_REPO)]);
    }

    /** deploymentStatusAction; `framework` is what the framework's action finds, or its error. */
    method DeploymentStatusAction(framework: Result<bool, ()>) returns (ok: bool)
      modifies this`status
      ensures ok <==> removed || framework.Success?
      ensures status == if ok then old(status).(available := removed || framework.value) else old(status)
    {
      if removed {
        status := status.(available := true);
        return true;
      }
      if framework.Failure? {
        return false;
      }
      status := status.(available := framework.value);
      ok := true;
    }

    /** distributionAction */
    method DistributionAction(semver: Semver, configs: Configs, fails: bool) returns (ok: bool)
      modifies this`status
      ensures ok ==> status == Distributed(semver, old(status), configs, ns)
      ensures ok && old(status).available ==> status == old(status).(distribution :=
        TakenOver(semver, Entry(configs, ns, "distribution.name"), Entry(configs, ns, "distribution.version"),
                  old(status).distribution))
      ensures !old(status).available ==> ok && status == old(status)
      ensures !ok ==> status == old(status) && fails && ns != ""
    {
      LookupSays(semver, configs, ns, status.distribution);
      if !status.available {
        return true;
      }
      var read := ReadDistribution(semver, configs, ns, fails);
      if read.Failure? {
        return false;
      }
      var (dist, found) := read.value;
      if found == Invalid {
        return true;
      }
      if found == Absent {
        dist := StandaloneDistribution("");
      }
      if status.distribution == dist {
        return true;
      }
      status := status.(distribution := dist);
      ok := true;
    }

    /** platformReleaseAction; `saw` is the version it read, if it came to reading one. */
    method PlatformReleaseAction(configs: Configs, fails: bool) returns (ok: bool, saw: string)
      modifies this`status
      ensures ok ==> status == Stamped(old(status), removed, saw)
      ensures ok ==> saw == if removed || !old(status).available then "" else Entry(configs, ns, "platformVersion")
      ensures !ok ==> status == old(status) && fails && ns != ""
    {
      if removed {
        return true, "";
      }
      if !status.available {
        return true, "";
      }
      var version := ReadVersion(configs, ns, fails);
      if version.Failure? {
        return false, "";
      }
      if version.value == "" {
        return true, "";
      }
      status := status.(releases := WithPlatform(status.releases, version.value));
      return true, version.value;
    }

    /** degradedAction and observedGenerationAction */
    method SettleActions()
      modifies this`status
      ensures status == Settled(old(status), generation)
    {
      status := status.(degraded := false);
      status := status.(observedGeneration := generation);
    }
  }

  /** The platform version that is to be had for a namespace; "" for none. */
  function SaidVersion(configs: Configs, ns: string): string {
    var config := Lookup(configs, ns);
    if config.Some? then Field(config.value, HANDSHAKE_KEY) else ""
  }

  /** The releases of a completed reconcile: the module's own, and a platform entry exactly when that
      reconcile was not a Removed one, saw the deployments available, and read a version. */
  lemma Handshake(kubeRayVersion: string, status: RayStatus, removed: bool, version: string)
    ensures var releases := Stamped(Reset(status, kubeRayVersion), removed, version).releases;
      && NamesDiffer(releases)
      && (forall v :: HasRelease(releases, "platform", v) <==> !removed && status.available && version != "" && v == version)
      && (forall v :: HasRelease(releases, "KubeRay", v) <==> kubeRayVersion != "" && v == kubeRayVersion)
      && (forall i :: 0 <= i < |releases| ==>
            || releases[i] == Release("KubeRay", kubeRayVersion, "https://github.com/opendatahub-io/kuberay")
            || releases[i] == Release("platform", version, ""))
  {
    assert KUBERAY[0] != PLATFORM[0];
    var own := ModuleReleases(kubeRayVersion);
    assert WithPlatform(own, version) == own + [Release(PLATFORM, version, "")] by {
      assert own != [] ==> own[1..] == [];
    }
    var releases := Stamped(Reset(status, kubeRayVersion), removed, version).releases;
    if !removed && status.available && version != "" {
      assert releases[|own|].name == PLATFORM;
    }
    if kubeRayVersion != "" {
      assert releases[0].name == KUBERAY;
    }
  }
}
