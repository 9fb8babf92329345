/** The status over whole runs: ConfigMaps and CR edits reach the operator's cache late, their events
    are handled later still, and reconciles may fail anywhere, in any order. */
module StatusRuns {
  import opened Wrappers
  import opened PlatformConfig
  import opened Status

  /** What the spec side of a CR looks like; `id` tells a CR from one recreated under its name. */
  datatype View = View(id: nat, generation: nat, ns: string, removed: bool)

  datatype Cr = Cr(view: View, status: RayStatus)

  /** Before the deployment status is known, before the distribution is read, before the platform
      version is read, and before the end. */
  datatype Stage = Applying | Reading | Stamping | Ending

  /** A reconcile under way: the CR as it saw it, its copy of the status, the distribution it started
      from, and the platform version it read. */
  datatype Run = Idle | Running(view: View, stage: Stage, work: RayStatus, before: Distribution, saw: string)

  /** `stored` and `configs` are what the API server has; `cached` and `seen` what the operator's cache
      has of them, the CR with a status of the same age. A change that reached the cache has an event
      that is not handled at once: `crEvent` for the CR, `events` for the ConfigMaps. `last` is the last
      reconcile if it completed. */
  datatype State = State(
    stored: Option<Cr>,
    configs: Configs,
    cached: Option<Cr>,
    seen: Configs,
    crEvent: bool,
    events: set<ConfigKey>,
    pending: bool,
    run: Run,
    last: Option<Run>,
    clock: nat)

  datatype Step =
    | CreateCr(ns: string, removed: bool)
    | EditCr(ns: string, removed: bool)
    | RemoveCr
    | PutConfig(key: ConfigKey, data: Data)
    | DropConfig(key: ConfigKey)
    | SyncCr
    | SyncConfig(key: ConfigKey)
    | HandleCr
    | HandleConfig(key: ConfigKey, lookupFails: bool)
    | Restart
    | Begin
    | FindDeployments(available: bool)
    | ReadDistributionStep
    | ReadVersionStep
    | Finish
    | Fail(statusWritten: bool)

  function ViewOf(stored: Option<Cr>): Option<View> {
    if stored.Some? then Some(stored.value.view) else None
  }

  /** Whether a reconcile is asked for once the event of a ConfigMap has been handled. */
  function Notify(s: State, key: ConfigKey, lookupFails: bool): bool {
    var ray := if lookupFails then Failing else if s.cached.Some? then Found(s.cached.value.view.ns) else Missing;
    s.pending || (Relevant(key.name) && Enqueues(key.name, key.ns, ray))
  }

  /** One ConfigMap is brought up to date. */
  function Synced(seen: Configs, configs: Configs, key: ConfigKey): Configs {
    if key in configs then seen[key := configs[key]] else seen - {key}
  }

  predicate AtStage(s: State, stage: Stage) {
    s.run.Running? && s.run.stage == stage
  }

  predicate SameCr(s: State, view: View) {
    s.stored.Some? && s.stored.value.view.id == view.id
  }

  predicate Enabled(s: State, step: Step) {
    match step
    case CreateCr(_, _) => s.stored == None
    case EditCr(_, _) => s.stored.Some?
    case RemoveCr => s.stored.Some?
    case PutConfig(_, _) => true
    case DropConfig(_) => true
    case SyncCr => true
    case SyncConfig(_) => true
    case HandleCr => s.crEvent
    case HandleConfig(key, _) => key in s.events
    case Restart => true
    case Begin => s.pending && s.run == Idle
    case FindDeployments(_) => AtStage(s, Applying)
    case ReadDistributionStep => AtStage(s, Reading)
    case ReadVersionStep => AtStage(s, Stamping)
    case Finish => AtStage(s, Ending) && SameCr(s, s.run.view)
    case Fail(_) => s.run.Running?
  }

  function Write(s: State, view: View, status: RayStatus): Option<Cr> {
    if SameCr(s, view) then Some(s.stored.value.(status := status)) else s.stored
  }

  function Next(semver: Semver, kubeRay: string, s: State, step: Step): State
    requires Enabled(s, step)
  {
    match step
    case CreateCr(ns, removed) =>
      s.(stored := Some(Cr(View(s.clock, 1, ns, removed), RayStatus(Distribution("", ""), [], false, false, 0))), clock := s.clock + 1)
    case EditCr(ns, removed) =>
      var view := s.stored.value.view;
      s.(stored := Some(s.stored.value.(view := view.(generation := view.generation + 1, ns := ns, removed := removed))))
    case RemoveCr => s.(stored := None)
    case PutConfig(key, data) => s.(configs := s.configs[key := data])
    case DropConfig(key) => s.(configs := s.configs - {key})
    // Only changes of the spec, and coming and going, make an event.
    case SyncCr => s.(cached := s.stored, crEvent := s.crEvent || ViewOf(s.cached) != ViewOf(s.stored))
    case SyncConfig(key) => s.(seen := Synced(s.seen, s.configs, key), events := s.events + {key})
    case HandleCr => s.(crEvent := false, pending := true)
    case HandleConfig(key, lookupFails) => s.(events := s.events - {key}, pending := Notify(s, key, lookupFails))
    case Restart =>
      s.(cached := s.stored, seen := s.configs, crEvent := false, events := {}, pending := true, run := Idle, last := None)
    case Begin =>
      var s' := s.(pending := false, last := None);
      if s.cached == None || s.cached.value.view.ns == "" then s'
      else
        var status := s.cached.value.status;
        s'.(run := Running(s.cached.value.view, Applying, Reset(status, kubeRay), status.distribution, ""))
    case FindDeployments(available) =>
      s.(run := s.run.(stage := Reading, work := s.run.work.(available := s.run.view.removed || available)))
    case ReadDistributionStep =>
      s.(run := s.run.(stage := Stamping, work := Distributed(semver, s.run.work, s.seen, s.run.view.ns)))
    case ReadVersionStep =>
      var view, work := s.run.view, s.run.work;
      var saw := VersionFor(s.seen, view, work);
      s.(run := s.run.(stage := Ending, saw := saw, work := Settled(Stamped(work, view.removed, saw), view.generation)))
    case Finish =>
      s.(stored := Write(s, s.run.view, s.run.work), run := Idle, last := Some(s.run))
    case Fail(statusWritten) =>
      var stored := if statusWritten then Write(s, s.run.view, s.run.work) else s.stored;
      s.(stored := stored, run := Idle, last := None, pending := true)
  }

  ghost predicate Initial(s: State) {
    s.stored == None && s.cached == None && s.run == Idle && s.last == None
  }

  ghost predicate IsRun(semver: Semver, kubeRay: string, s: State, steps: seq<Step>)
    decreases |steps|, 0
  {
    steps == [] || (IsRun(semver, kubeRay, s, steps[..|steps| - 1])
                    && Enabled(After(semver, kubeRay, s, steps[..|steps| - 1]), steps[|steps| - 1]))
  }

  ghost function After(semver: Semver, kubeRay: string, s: State, steps: seq<Step>): State
    requires IsRun(semver, kubeRay, s, steps)
    decreases |steps|, 1
  {
    if steps == [] then s
    else Next(semver, kubeRay, After(semver, kubeRay, s, steps[..|steps| - 1]), steps[|steps| - 1])
  }

  /******* The invariant *******/

  /** The status says what the ConfigMap of the namespace says now, or, if that is unusable, what it
      said before the reconcile. */
  ghost predicate Agrees(semver: Semver, configs: Configs, ns: string, work: RayStatus, before: Distribution) {
    var said := Denotes(semver, Lookup(configs, ns));
    work.available ==> work.distribution == if said.Some? then said.value else before
  }

  /** The platform version that a reconcile of this view has to report; "" for none. */
  function VersionFor(configs: Configs, view: View, work: RayStatus): string {
    if view.removed || !work.available then "" else SaidVersion(configs, view.ns)
  }

  predicate Known(s: State, view: View) {
    view.id < s.clock
  }

  /** No other reconcile is going to be asked for on account of the CR, or of the ConfigMap that a CR of
      this namespace looks at. */
  predicate Calm(s: State, ns: string) {
    !s.pending && !s.crEvent && ConfigKey(ns, CONFIG_NAME) !in s.events
  }

  /** The reconcile's copy is in line with the ConfigMaps from the time it has read them, unless
      another reconcile is asked for or going to be. */
  ghost predicate RunInv(semver: Semver, kubeRay: string, s: State, run: Run) {
    run.Running? ==>
      && Known(s, run.view) && run.view.ns != ""
      && (!s.pending && !s.crEvent ==> ViewOf(s.cached) == Some(run.view))
      && (run.stage == Applying || run.stage == Reading ==> run.work.distribution == run.before)
      && (run.stage == Stamping || run.stage == Ending ==>
            Calm(s, run.view.ns) ==> Agrees(semver, s.seen, run.view.ns, run.work, run.before))
      && (run.stage == Ending && Calm(s, run.view.ns) ==> run.saw == VersionFor(s.seen, run.view, run.work))
      && (run.stage != Ending ==> run.work.releases == ModuleReleases(kubeRay) && run.saw == "")
      && (run.stage == Ending ==>
            && run.work.releases == Stamped(Reset(run.work, kubeRay), run.view.removed, run.saw).releases
            && run.work.observedGeneration == run.view.generation && !run.work.degraded)
  }

  ghost predicate Inv(semver: Semver, kubeRay: string, s: State) {
    && (s.stored.Some? ==> Known(s, s.stored.value.view))
    && (s.cached.Some? ==> Known(s, s.cached.value.view))
    && RunInv(semver, kubeRay, s, s.run)
    && (s.run.Running? ==> s.last == None)
    && (!s.pending && !s.crEvent && s.run == Idle && s.cached.Some? && s.cached.value.view.ns != "" ==> s.last.Some?)
    && (s.last.Some? ==>
          && s.last.value.Running? && s.last.value.stage == Ending && RunInv(semver, kubeRay, s, s.last.value)
          && (SameCr(s, s.last.value.view) ==> s.stored.value.status == s.last.value.work))
  }

  /** A ConfigMap whose event the handler drops is not the one that the cached CR looks at. */
  lemma DroppedEventsDoNotMatter(s: State, key: ConfigKey, lookupFails: bool, seen: Configs, ns: string)
    requires !Notify(s, key, lookupFails) && s.cached.Some? && s.cached.value.view.ns == ns
    requires forall k :: k != key ==> (k in seen <==> k in s.seen)
    requires forall k :: k != key && k in seen ==> seen[k] == s.seen[k]
    ensures Lookup(seen, ns) == Lookup(s.seen, ns)
    ensures ns != "" ==> key != ConfigKey(ns, CONFIG_NAME)
  {}

  lemma CacheKeepsRun(semver: Semver, kubeRay: string, s: State, step: Step, run: Run)
    requires RunInv(semver, kubeRay, s, run) && Enabled(s, step)
    requires step.SyncCr? || step.SyncConfig? || step.HandleCr? || step.HandleConfig?
    ensures RunInv(semver, kubeRay, Next(semver, kubeRay, s, step), run)
  {
    if run.Running? && step.HandleConfig? && !s.crEvent && !Notify(s, step.key, step.lookupFails) {
      DroppedEventsDoNotMatter(s, step.key, step.lookupFails, s.seen, run.view.ns);
    }
  }

  lemma CacheKeeps(semver: Semver, kubeRay: string, s: State, step: Step)
    requires Inv(semver, kubeRay, s) && Enabled(s, step)
    requires step.SyncCr? || step.SyncConfig? || step.HandleCr? || step.HandleConfig?
    ensures Inv(semver, kubeRay, Next(semver, kubeRay, s, step))
  {
    CacheKeepsRun(semver, kubeRay, s, step, s.run);
    if s.last.Some? { CacheKeepsRun(semver, kubeRay, s, step, s.last.value); }
  }

  lemma ReadKeeps(semver: Semver, kubeRay: string, s: State, step: Step)
    requires Inv(semver, kubeRay, s) && Enabled(s, step)
    requires step.FindDeployments? || step.ReadDistributionStep? || step.ReadVersionStep?
    ensures Inv(semver, kubeRay, Next(semver, kubeRay, s, step))
  {}

  lemma EndKeeps(semver: Semver, kubeRay: string, s: State, step: Step)
    requires Inv(semver, kubeRay, s) && Enabled(s, step) && (step.Finish? || step.Fail? || step.Begin?)
    ensures Inv(semver, kubeRay, Next(semver, kubeRay, s, step))
  {}

  lemma ApiKeeps(semver: Semver, kubeRay: string, s: State, step: Step)
    requires Inv(semver, kubeRay, s) && Enabled(s, step)
    requires step.CreateCr? || step.EditCr? || step.RemoveCr? || step.PutConfig? || step.DropConfig? || step.Restart?
    ensures Inv(semver, kubeRay, Next(semver, kubeRay, s, step))
  {}

  lemma StepKeeps(semver: Semver, kubeRay: string, s: State, step: Step)
    requires Inv(semver, kubeRay, s) && Enabled(s, step)
    ensures Inv(semver, kubeRay, Next(semver, kubeRay, s, step))
  {
    match step
    case SyncCr => CacheKeeps(semver, kubeRay, s, step);
    case SyncConfig(_) => CacheKeeps(semver, kubeRay, s, step);
    case HandleCr => CacheKeeps(semver, kubeRay, s, step);
    case HandleConfig(_, _) => CacheKeeps(semver, kubeRay, s, step);
    case FindDeployments(_) => ReadKeeps(semver, kubeRay, s, step);
    case ReadDistributionStep => ReadKeeps(semver, kubeRay, s, step);
    case ReadVersionStep => ReadKeeps(semver, kubeRay, s, step);
    case Finish => EndKeeps(semver, kubeRay, s, step);
    case Fail(_) => EndKeeps(semver, kubeRay, s, step);
    case Begin => EndKeeps(semver, kubeRay, s, step);
    case _ => ApiKeeps(semver, kubeRay, s, step);
  }

  lemma {:induction false} RunKeeps(semver: Semver, kubeRay: string, s: State, steps: seq<Step>)
    requires Initial(s) && IsRun(semver, kubeRay, s, steps)
    ensures Inv(semver, kubeRay, After(semver, kubeRay, s, steps))
    decreases |steps|
  {
    if steps != [] {
      var n := |steps| - 1;
      RunKeeps(semver, kubeRay, s, steps[..n]);
      StepKeeps(semver, kubeRay, After(semver, kubeRay, s, steps[..n]), steps[n]);
    }
  }

  /******* Theorems *******/

  /** The cache is up to date as to the CR's spec and the ConfigMaps, no event waits to be handled, no
      request is waiting, and no reconcile is under way. */
  predicate Quiescent(s: State) {
    && ViewOf(s.cached) == ViewOf(s.stored) && s.seen == s.configs
    && !s.crEvent && s.events == {} && !s.pending && s.run == Idle
  }

  /** No ConfigMap update is lost: when things have come to rest and the CR has a namespace, the last
      reconcile completed, it saw the CR as it is stored now, and with the deployments available
      status.distribution is what the current ConfigMap says, or, if its version is unusable, what
      the reconcile's copy had; and the platform version it read is the current one. */
  lemma RestAgrees(semver: Semver, kubeRay: string, s0: State, steps: seq<Step>)
    requires Initial(s0) && IsRun(semver, kubeRay, s0, steps)
    requires var s := After(semver, kubeRay, s0, steps); Quiescent(s) && s.stored.Some? && s.stored.value.view.ns != ""
    ensures var s := After(semver, kubeRay, s0, steps);
      var status, view := s.stored.value.status, s.stored.value.view;
      var name, version := Entry(s.configs, view.ns, "distribution.name"), Entry(s.configs, view.ns, "distribution.version");
      && s.last.Some? && s.last.value.Running? && s.last.value.view == view
      && status.observedGeneration == view.generation
      && (status.available ==> status.distribution == TakenOver(semver, name, version, s.last.value.before))
      && s.last.value.saw ==
           if view.removed || !status.available then "" else Entry(s.configs, view.ns, "platformVersion")
  {
    RunKeeps(semver, kubeRay, s0, steps);
    var s := After(semver, kubeRay, s0, steps);
    LookupSays(semver, s.configs, s.stored.value.view.ns, s.last.value.before);
  }

  function Undisturbed(available: bool): seq<Step> {
    [Begin, FindDeployments(available), ReadDistributionStep, ReadVersionStep, Finish]
  }

  lemma Extend(semver: Semver, kubeRay: string, s: State, steps: seq<Step>, step: Step)
    requires IsRun(semver, kubeRay, s, steps) && Enabled(After(semver, kubeRay, s, steps), step)
    ensures IsRun(semver, kubeRay, s, steps + [step])
    ensures After(semver, kubeRay, s, steps + [step]) == Next(semver, kubeRay, After(semver, kubeRay, s, steps), step)
  {
    assert (steps + [step])[..|steps|] == steps;
  }

  lemma UntilReading(semver: Semver, kubeRay: string, s: State, available: bool)
    requires s.pending && s.run == Idle && s.cached.Some? && s.cached.value.view.ns != ""
    ensures IsRun(semver, kubeRay, s, [Begin, FindDeployments(available)])
    ensures var view, status := s.cached.value.view, s.cached.value.status;
      var work := Reset(status, kubeRay).(available := view.removed || available);
      After(semver, kubeRay, s, [Begin, FindDeployments(available)]) ==
        s.(pending := false, last := None, run := Running(view, Reading, work, status.distribution, ""))
  {
    Extend(semver, kubeRay, s, [], Begin);
    assert [] + [Begin] == [Begin];
    Extend(semver, kubeRay, s, [Begin], FindDeployments(available));
    assert [Begin] + [FindDeployments(available)] == [Begin, FindDeployments(available)];
  }

  /** From reading the distribution to the end. */
  lemma FromReading(semver: Semver, kubeRay: string, s: State, steps: seq<Step>)
    requires IsRun(semver, kubeRay, s, steps)
    requires var s1 := After(semver, kubeRay, s, steps); AtStage(s1, Reading) && SameCr(s1, s1.run.view)
    ensures var rest := [ReadDistributionStep, ReadVersionStep, Finish];
      var s1 := After(semver, kubeRay, s, steps);
      var view, work := s1.run.view, Distributed(semver, s1.run.work, s1.seen, s1.run.view.ns);
      && IsRun(semver, kubeRay, s, steps + rest)
      && After(semver, kubeRay, s, steps + rest).stored ==
           Some(s1.stored.value.(status := Settled(Stamped(work, view.removed, VersionFor(s1.seen, view, work)), view.generation)))
  {
    Extend(semver, kubeRay, s, steps, ReadDistributionStep);
    var t1 := steps + [ReadDistributionStep];
    Extend(semver, kubeRay, s, t1, ReadVersionStep);
    var t2 := t1 + [ReadVersionStep];
    Extend(semver, kubeRay, s, t2, Finish);
    assert steps + [ReadDistributionStep, ReadVersionStep, Finish] == t2 + [Finish];
  }

  lemma UndisturbedEnds(semver: Semver, kubeRay: string, s: State, available: bool)
    requires s.pending && s.run == Idle && s.cached.Some?
    requires s.cached.value.view.ns != "" && SameCr(s, s.cached.value.view)
    ensures IsRun(semver, kubeRay, s, Undisturbed(available))
    ensures var view := s.cached.value.view;
      var found := Reset(s.cached.value.status, kubeRay).(available := view.removed || available);
      var work := Distributed(semver, found, s.seen, view.ns);
      After(semver, kubeRay, s, Undisturbed(available)).stored ==
        Some(s.stored.value.(status := Settled(Stamped(work, view.removed, VersionFor(s.seen, view, work)), view.generation)))
  {
    UntilReading(semver, kubeRay, s, available);
    FromReading(semver, kubeRay, s, [Begin, FindDeployments(available)]);
    assert Undisturbed(available) == [Begin, FindDeployments(available)] + [ReadDistributionStep, ReadVersionStep, Finish];
  }

  /** The whole status that a reconcile leaves when nobody disturbs it, told by the fields: it counts as
      available once Removed; only then, or with the deployments available, the distribution is taken
      over, otherwise the copy's stays; and the releases are the module's own, and the platform's while
      Managed and available. */
  lemma UndisturbedReconcile(semver: Semver, kubeRay: string, s: State, available: bool)
    requires s.pending && s.run == Idle && s.cached.Some?
    requires s.cached.value.view.ns != "" && SameCr(s, s.cached.value.view)
    ensures IsRun(semver, kubeRay, s, Undisturbed(available))
    ensures After(semver, kubeRay, s, Undisturbed(available)).stored.Some?
    ensures var view, copy := s.cached.value.view, s.cached.value.status;
      var now := After(semver, kubeRay, s, Undisturbed(available)).stored.value;
      var name, version := Entry(s.seen, view.ns, "distribution.name"), Entry(s.seen, view.ns, "distribution.version");
      var platform := Entry(s.seen, view.ns, "platformVersion");
      && now.view == s.stored.value.view
      && now.status.available == (view.removed || available)
      && !now.status.degraded && now.status.observedGeneration == view.generation
      && now.status.distribution ==
           (if view.removed || available then TakenOver(semver, name, version, copy.distribution) else copy.distribution)
      && NamesDiffer(now.status.releases)
      && (forall v :: HasRelease(now.status.releases, "KubeRay", v) <==> kubeRay != "" && v == kubeRay)
      && (forall v :: HasRelease(now.status.releases, "platform", v) <==>
            !view.removed && available && platform != "" && v == platform)
  {
    UndisturbedEnds(semver, kubeRay, s, available);
    var view := s.cached.value.view;
    LookupSays(semver, s.seen, view.ns, s.cached.value.status.distribution);
    var found := Reset(s.cached.value.status, kubeRay).(available := view.removed || available);
    var work := Distributed(semver, found, s.seen, view.ns);
    Handshake(kubeRay, work, view.removed, VersionFor(s.seen, view, work));
  }

  /** What a reconcile takes over from its copy may be older than what is stored: with an unusable
      version, or without the deployments available, the stored distribution stays exactly if the
      copy's is the same. */
  lemma UnusableKeepsCopy(semver: Semver, kubeRay: string, s: State, available: bool)
    requires s.pending && s.run == Idle && s.cached.Some?
    requires s.cached.value.view.ns != "" && SameCr(s, s.cached.value.view)
    ensures IsRun(semver, kubeRay, s, Undisturbed(available))
    ensures After(semver, kubeRay, s, Undisturbed(available)).stored.Some?
    ensures var view, was, copy := s.cached.value.view, s.stored.value.status.distribution, s.cached.value.status.distribution;
      var version := Entry(s.seen, view.ns, "distribution.version");
      !(view.removed || available)
      || |version| > 64 || (version != "" && !semver(if version[0] == 'v' then version[1..] else version)) ==>
        (After(semver, kubeRay, s, Undisturbed(available)).stored.value.status.distribution == was <==> copy == was)
  {
    UndisturbedReconcile(semver, kubeRay, s, available);
  }

  /** After every completed reconcile of the stored CR, and until the next one begins, the releases
      have a platform entry exactly if that reconcile was not a Removed one, saw the deployments
      available and read a platform version; the entry is that version, and no name appears twice. */
  lemma HandshakeIsSafe(semver: Semver, kubeRay: string, s0: State, steps: seq<Step>)
    requires Initial(s0) && IsRun(semver, kubeRay, s0, steps)
    requires var s := After(semver, kubeRay, s0, steps); s.last.Some? && s.last.value.Running? && SameCr(s, s.last.value.view)
    ensures var s := After(semver, kubeRay, s0, steps);
      var releases, last := s.stored.value.status.releases, s.last.value;
      && NamesDiffer(releases)
      && forall v :: HasRelease(releases, "platform", v) <==>
           !last.view.removed && s.stored.value.status.available && last.saw != "" && v == last.saw
  {
    RunKeeps(semver, kubeRay, s0, steps);
    var s := After(semver, kubeRay, s0, steps);
    Handshake(kubeRay, s.last.value.work, s.last.value.view.removed, s.last.value.saw);
  }

  /******* What may happen *******/

  /** What users write is what is stored. */
  lemma CrChanges(semver: Semver, kubeRay: string, s: State, ns: string, removed: bool)
    ensures s.stored == None ==>
      var view := View(s.clock, 1, ns, removed);
      Enabled(s, CreateCr(ns, removed)) && ViewOf(Next(semver, kubeRay, s, CreateCr(ns, removed)).stored) == Some(view)
    ensures s.stored.Some? ==>
      var view := s.stored.value.view;
      Enabled(s, EditCr(ns, removed)) && Next(semver, kubeRay, s, EditCr(ns, removed)).stored ==
        Some(s.stored.value.(view := View(view.id, view.generation + 1, ns, removed)))
    ensures s.stored.Some? ==> Enabled(s, RemoveCr) && Next(semver, kubeRay, s, RemoveCr).stored == None
  {}

  /** What the platform writes is what is stored, and the cache gets it one ConfigMap at a time, with an
      event each time. */
  lemma ConfigChanges(semver: Semver, kubeRay: string, s: State, key: ConfigKey, data: Data)
    ensures Next(semver, kubeRay, s, PutConfig(key, data)).configs == s.configs[key := data]
    ensures Next(semver, kubeRay, s, DropConfig(key)).configs == s.configs - {key}
    ensures var s' := Next(semver, kubeRay, s, SyncConfig(key));
      && s'.events == s.events + {key} && (key in s'.seen <==> key in s.configs)
      && (key in s.configs ==> s'.seen[key] == s.configs[key])
      && (forall k :: k != key ==> (k in s'.seen <==> k in s.seen) && (k in s.seen ==> s'.seen[k] == s.seen[k]))
  {}

  /** The cache gets the CR as it is, with an event unless its spec stays; and a reconcile starts whenever
      one is asked for and the cache has a CR with a namespace, and may fail at any time. */
  lemma ReconcilesStart(semver: Semver, kubeRay: string, s: State, written: bool)
    ensures var s' := Next(semver, kubeRay, s, SyncCr);
      s'.cached == s.stored && (s'.crEvent <==> s.crEvent || ViewOf(s.cached) != ViewOf(s.stored))
    ensures s.pending && s.run == Idle ==>
      && Enabled(s, Begin)
      && (Next(semver, kubeRay, s, Begin).run.Running? <==> s.cached.Some? && s.cached.value.view.ns != "")
    ensures s.run.Running? ==> Enabled(s, Fail(written)) && Next(semver, kubeRay, s, Fail(written)).pending
  {}
}
