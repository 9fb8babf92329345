/** The platform's ConfigMap: who is told about it, and what it says. */
module PlatformConfig {
  import opened Wrappers

  const CONFIG_NAME := "odh-ray-config"
  const NAME_KEY := "distribution.name"
  const VERSION_KEY := "distribution.version"
  const HANDSHAKE_KEY := "platformVersion"
  const STANDALONE := "Standalone"
  const STANDALONE_VERSION := "0.0.0"
  const MAX_RELEASE_VERSION_LENGTH := 64

  type Data = map<string, string>

  datatype ConfigKey = ConfigKey(ns: string, name: string)

  type Configs = map<ConfigKey, Data>

  datatype Distribution = Distribution(name: string, version: string)

  datatype ReadStatus = Absent | OK | Invalid

  /** The semver parser, which is not part of this model. */
  type Semver = string -> bool

  function Field(data: Data, key: string): string {
    if key in data then data[key] else ""
  }

  /******* Versions *******/

  function TrimV(version: string): string {
    if version != "" && version[0] == 'v' then version[1..] else version
  }

  /** validateReleaseVersion */
  predicate ValidVersion(semver: Semver, version: string) {
    |version| <= MAX_RELEASE_VERSION_LENGTH && semver(TrimV(version))
  }

  /******* Reading *******/

  /** The ConfigMap that a CR with the given namespace looks at. */
  function Lookup(configs: Configs, ns: string): Option<Data> {
    var key := ConfigKey(ns, CONFIG_NAME);
    if ns != "" && key in configs then Some(configs[key]) else None
  }

  /** readPlatformDistribution; `fails` says that the API call fails, if there is one. */
  function ReadDistribution(semver: Semver, configs: Configs, ns: string, fails: bool)
    : Result<(Distribution, ReadStatus), ()>
  {
    var nothing := Distribution("", "");
    if ns == "" then Success((nothing, Absent))
    else if fails then Failure(())
    else if ConfigKey(ns, CONFIG_NAME) !in configs then Success((nothing, Absent))
    else
      var data := configs[ConfigKey(ns, CONFIG_NAME)];
      var name, version := Field(data, NAME_KEY), Field(data, VERSION_KEY);
      if name == "" && version == "" then Success((nothing, Absent))
      else if version != "" && !ValidVersion(semver, version) then Success((nothing, Invalid))
      else Success((Distribution(if name == "" then STANDALONE else name, version), OK))
  }

  /** readPlatformVersion */
  function ReadVersion(configs: Configs, ns: string, fails: bool): Result<string, ()> {
    if ns == "" then Success("")
    else if fails then Failure(())
    else if ConfigKey(ns, CONFIG_NAME) !in configs then Success("")
    else Success(Field(configs[ConfigKey(ns, CONFIG_NAME)], HANDSHAKE_KEY))
  }

  function StandaloneDistribution(moduleVersion: string): Distribution {
    Distribution(STANDALONE, if moduleVersion == "" then STANDALONE_VERSION else moduleVersion)
  }

  /** What a ConfigMap means for status.distribution; None if its version is unusable. A platform that
      says nothing about itself is no platform. */
  function Denotes(semver: Semver, config: Option<Data>): Option<Distribution> {
    var name := if config.Some? then Field(config.value, NAME_KEY) else "";
    var version := if config.Some? then Field(config.value, VERSION_KEY) else "";
    if name == version == "" then Some(Distribution(STANDALONE, STANDALONE_VERSION))
    else if version == "" || ValidVersion(semver, version) then
      Some(Distribution(if name == "" then STANDALONE else name, version))
    else None
  }

  /******* Events *******/

  /** What the client's cache says when the mapper asks for the CR. */
  datatype CrLookup = Found(ns: string) | Missing | Failing

  predicate Relevant(name: string) {
    name == CONFIG_NAME
  }

  /** platformConfigMapper: whether an event on the named ConfigMap asks for a reconcile. */
  predicate Enqueues(name: string, ns: string, ray: CrLookup) {
    if name != CONFIG_NAME then false
    else match ray
      case Missing => false
      case Failing => true
      case Found(appsNamespace) => appsNamespace != "" && ns == appsNamespace
  }

  /** With the CR found, an event asks for a reconcile exactly if the ConfigMap is the one whose content
      the CR depends on. With no CR it never does, and with a failing lookup by the name alone. */
  lemma EnqueuesWhatMatters(name: string, ns: string, appsNamespace: string)
    ensures Enqueues(name, ns, Found(appsNamespace)) <==>
      exists configs: Configs, data :: Depends(configs, ConfigKey(ns, name), data, appsNamespace)
    ensures Enqueues(name, ns, Failing) <==> name == "odh-ray-config"
    ensures !Enqueues(name, ns, Missing)
  {
    var key, none: Configs, data: Data := ConfigKey(ns, name), map[], map[];
    if Enqueues(name, ns, Found(appsNamespace)) {
      assert Depends(none, key, data, appsNamespace);
    }
  }

  ghost predicate Depends(configs: Configs, key: ConfigKey, data: Data, appsNamespace: string) {
    Lookup(configs[key := data], appsNamespace) != Lookup(configs, appsNamespace)
  }

  /******* Told by the fields *******/

  // What follows is spelled out on the ConfigMap's fields; no operation of the model uses it.

  /** A field of the ConfigMap `odh-ray-config` in the namespace; "" if anything is missing. */
  function Entry(configs: Configs, ns: string, field: string): string {
    var k := ConfigKey(ns, "odh-ray-config");
    if ns != "" && k in configs && field in configs[k] then configs[k][field] else ""
  }

  /** The distribution taken over from the two fields: nothing given is Standalone 0.0.0; a version of
      more than 64 characters, or that the parser refuses without its leading v, leaves what there was. */
  function TakenOver(semver: Semver, name: string, version: string, was: Distribution): Distribution {
    if name == "" && version == "" then Distribution("Standalone", "0.0.0")
    else if version != "" && (|version| > 64 || !semver(if version[0] == 'v' then version[1..] else version)) then was
    else Distribution(if name == "" then "Standalone" else name, version)
  }

  lemma LookupSays(semver: Semver, configs: Configs, ns: string, was: Distribution)
    ensures var said := Denotes(semver, Lookup(configs, ns));
      (if said.Some? then said.value else was) ==
      TakenOver(semver, Entry(configs, ns, "distribution.name"), Entry(configs, ns, "distribution.version"), was)
  {}
}
