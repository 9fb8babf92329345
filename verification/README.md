# Verification of the Ray module operator

The Ray module operator installs and removes KubeRay for one cluster-scoped CR, `default-ray`. This
project models its reconciler in Dafny and proves what it is for: that removal and deletion leave no
operand behind and never get stuck, that nothing is written before its requirements are met, that
no platform ConfigMap update is lost, and that the text files it rewrites hold what was set.

Check everything with `dafny verify dfyconfig.toml`.

## How it is laid out

Objects and interference
- `Cluster.dfy`: kinds, keys and objects; what third parties may do between two API calls (`Act`); the
  API server as a class whose script says, call by call, who interferes and how the call is answered
  (served, refused, or served with the reply lost).
- `OwnedGC.dfy`, `OwnedGCLaws.dfy`: deletion of owned or labelled operands. `Swept` says for every key what
  a pass may do to it: leave it to third parties, or delete it after having seen its mark.
- `NotebookRBAC.dfy`: the ClusterRole for notebooks. `Cleanup.dfy`: the garbage collection and deletion actions;
  `CleanupLaws.dfy`: exactly what each of them takes.

The life of the CR
- `RayApi.dfy`: admission rules, guarded updates, the wait for a namespace.
- `Lifecycle.dfy`: users, third parties and the operator as one step system. The operator's steps are allowed
  exactly what the contracts of the methods above allow (`Swept`, `Applied`, `Deleted`, `Reconciled`, `CleanedUp`).
- `LifecycleInvariant.dfy`, `LifecycleTheorems.dfy`: the invariant, and what follows over whole runs.
- `LifecycleModes.dfy`, `LifecycleExample.dfy`: changing between Managed and Removed, and two runs that show why
  simpler statements fail. `LifecycleDeploys.dfy`: what a Managed reconcile deploys. `LifecycleDeletion.dfy`: deletion ends, and takes the operands along.

Resources and files
- `Render.dfy`, `PlatformFilter.dfy`, `Dependencies.dfy`: rendering passes, the in-place filter, the cert-manager gate.
- `Disk.dfy`, `Text.dfy`, `Params.dfy`, `Overrides.dfy`: the params file, and what can go wrong with files.
- `Overlay.dfy`, `OverlayPattern.dfy`, `OverlayLaws.dfy`, `OverlayRepairs.dfy`: the namespace rewrite, what its
  pattern and templates mean, its laws, and which files and earlier namespaces make no difference to it.
- `Releases.dfy`, `WritableManifests.dfy`: image references, and the writable copy over many reconciles.

Status
- `PlatformConfig.dfy`, `Status.dfy`, `StatusRuns.dfy`: the platform ConfigMap, the status actions, and a second step
  system in which ConfigMaps and CR edits reach the operator's cache late, their events are handled later
  still, and reconciles fail anywhere.

Many functions serve both as the model and in contracts, such as the label test. So that a slip in one of them
cannot go unnoticed, each area has theorems that are told by the fields, texts and numbers of the source
instead: predicates that "no operation of the model uses", or the literals themselves.

## What is relied on

- The framework runs the actions in the order they are registered and stops at the first error; it adds
  the finalizer, by an update guarded by the resourceVersion, before the wait for a namespace; a true answer
  of that wait ends the reconcile; on deletion it runs the deletion action only, and takes the finalizer off
  once that returns nil; a failed reconcile is run again; one reconcile runs at a time.
- A reconcile may work on any version its CR ever had, but not on a CR that is gone. What the step systems leave free
  is stated too: `UsersGetTheirWay`, `AnythingMayGoWrong`, `AnyReplyMayCome`, `Cluster.AnyoneMay`, and `CrChanges`,
  `ConfigChanges` and `ReconcilesStart` for the status.
- The framework's collector deletes the marked objects among those it happens to find, never a CRD; while Managed
  it does not count what the same reconcile applied among them. The deploy action writes the given resources with
  their labels, perhaps with an ownerRef, and nothing else; it may stop anywhere, but has applied all if it succeeds.
- With a namespace given, kustomize gives every object of the four namespaced operand kinds some namespace,
  and renders no ClusterRole called `ray`.
- Users do not take the finalizer off by hand. Third parties may delete, replace and edit anything, except that
  no single edit leaves an operator-written object of the seven operand kinds with neither label nor ownerRef.
- Operands have no finalizers of their own, so that a delete that goes through removes them.
- The operator's cache may be behind the API server by any amount, for the CR with its status and for each
  ConfigMap separately. A change of a ConfigMap, and of the CR's spec or existence, that reaches the cache makes
  an event that is handled some time later; after a restart the cache starts from what is stored. The status
  is written to the CR that the reconcile was for, or not at all.
- The two files of the overlay are copied in the order of their names; a temporary file that could not be
  moved into place can be removed.
- The client's scheme knows the seven operand kinds (for a kind it does not know, or the server does not serve,
  listing is skipped as if there were no objects; `Swept` says so).

## Results worth knowing

- An unmatched kustomization file that ends in a bare `namespace:` line swallows the line that is appended to
  it: the next run reads `namespace:` as the value and leaves a broken line. `SetThenGet` and `SetTwice` prove
  that these files (`Dangling`) are exactly the ones that fail; `DanglingExample` is the smallest.
- A namespace is read back from every other file exactly if it is one word without `$$`, `$name` or `${name}`
  (`GetIsLaw`): the replacement is a template. Overwriting works for exactly the later namespaces without such a
  reference (`SetTwiceIsLaw`), and over exactly the earlier ones that are one word, perhaps after blanks, do not
  refer to the match and still are a word once expanded, such as `$$` (`FirstIsLaw`). `DollarExample`: setting
  `$0` in `namespace: a` gives `namespace: namespace: a`.
- A copy of the manifests that fails half way is taken for a complete one by every later call. Neither file comes
  or goes after that (`HalfCopyIsKept`), and without params calls go on succeeding (`MissingIsAccepted`,
  `HalfCopyExample`). Params that were copied in part give the right result exactly if what they lack is
  overridden (`DeployedImageIsReported`, `TargetsAgree`). No later failure harms the params, which are moved into
  place (`ParamsOverRun`).
- An overlay that was copied or written in part is right after the next success, and if it has no dangling key
  line after every later one, exactly if it has the outline of the right one: the same text outside the matches
  (`OverlayFollows`, `SameAfterSetting`). So a write that stopped right before the appended line is made good; an
  overlay that was truncated is so only if there was nothing but a namespace line in it
  (`TruncatedOverlayIsKept`, `TruncatedExample`).
- "The notebook role exists iff the last successful reconcile was not Removed" does not hold
  (`LastSuccessDoesNotDecide`): a Removed reconcile that fails late has already deleted the role.
  `RoleFollowsMode`: the role follows the reconcile that last settled it, as long as no third party touches it,
  no cleanup runs, and no attempt to settle it for the other mode fails. `LastSuccessDecides`: under the same
  proviso it follows the last successful reconcile exactly if that is the one that settled it, or the two were of
  the same mode. The proviso is needed (`FailedAttemptDecides`): an attempt whose reply is lost may have deleted
  the role, without any reconcile getting past the notebook stage.
- With an unusable version in the ConfigMap a reconcile keeps the distribution of its copy of the CR, which may be
  older than the stored one and then replaces it (`UnusableKeepsCopy`).
- A map survives printing and parsing exactly if every entry fits on a line (`RoundTrip`): a value that ends in
  a carriage return does not.
- The promise that nothing leaks ends with the seven listed kinds (`OtherKindsMayStay`).

## Model

| member | source | states |
|---|---|---|
| OwnedGC.DeleteOwnedFromList | internal/controller/owned_gc.go:90-119 | one list, any interference: marked objects of the list are deleted and nothing else, an unlistable kind is skipped, failure leaves a part undone and uses up a troubled call |
| OwnedGC.DeleteOwnedOperands | internal/controller/owned_gc.go:56-88 | the same over the four namespaced kinds in the CR's namespace, if any, and the three cluster kinds; without a uid nothing happens |
| OwnedGCLaws.PassSubtracts | internal/controller/owned_gc.go:59-119 | refinement: on success the cluster is the old one minus the owned-or-labelled objects in scope and what others removed; on failure minus a subset |
| OwnedGCLaws.ListTakesExactly | internal/controller/owned_gc.go:90-137 | told by the fields: after a successful list nobody wrote to meanwhile, an object is gone iff it was removed by others, or is of the kind and namespace and has the uid as an owner or the label part-of with value ray |
| OwnedGCLaws.PassTakesExactly | internal/controller/owned_gc.go:34-137 | the same for the pass, over exactly the four namespaced kinds in the CR's namespace and the three cluster-scoped kinds |
| OwnedGCLaws.SecondPassIsIdle | internal/controller/owned_gc.go:59-119 | a successful pass leaves no targets, and another pass changes nothing |
| OwnedGCLaws.RetriesConverge | internal/controller/owned_gc.go:59-119 | any number of failed passes before a successful one end in the same cluster as one undisturbed pass |
| OwnedGCLaws.PassLeavesNone | internal/controller/owned_gc.go:56-137 | under arbitrary interference a successful pass leaves no operator-written object of this CR in scope, and no pass makes one |
| NotebookRBAC.Apply | internal/controller/notebook_rbac.go:51-70 | whatever was there, success means the role had exactly the wanted labels, rules and no ownerRefs; it fails only on a troubled call; nothing else is touched |
| NotebookRBAC.AppliedGrants | internal/controller/notebook_rbac.go:51-126 | told by the fields: the applied ClusterRole `ray` had no owners, the five rules and exactly the two labels at some point, and has them now if nobody interfered; all else is as it was |
| NotebookRBAC.Delete | internal/controller/notebook_rbac.go:72-96 | success means the role was gone at some point; the deletion is requested only once leftover ownerRefs are dropped; failure leaves it as it was, without ownerRefs, or gone; NotFound counts as success throughout |
| NotebookRBAC.DeletedExactly | internal/controller/notebook_rbac.go:72-96 | an undisturbed deletion takes the ClusterRole `ray`, whatever its marks, and nothing else |
| Cleanup.Collect | internal/controller/owned_gc.go:56-58 | the framework's collector: of the objects it found, those with the mark are collected and the others left alone, never a CRD, and nothing that it did not find |
| Cleanup.ReconcileGC | internal/controller/ray_controller.go:187-213 | Managed collects the owned objects that were found; Removed deletes every operand found by owner or label, and then what the collector found by label; what neither looks at is left alone |
| Cleanup.DeletionCleanup | internal/controller/ray_controller.go:215-252 | the role, what the collector found by label, and the operands; success leaves nothing of the CR where it looks; an empty namespace succeeds at once; CRDs and unmarked objects are never deleted |
| CleanupLaws.ManagedTakesExactly | internal/controller/ray_controller.go:187-213 | told by the fields, others doing no more than removing: while Managed exactly the found objects with the CR as an owner go, except CRDs |
| CleanupLaws.RemovedTakesExactly | internal/controller/ray_controller.go:199-209 | once Removed exactly the owned or labelled objects of the listed kinds and the labelled ones that were found go, except CRDs |
| CleanupLaws.DeletionTakesExactly | internal/controller/ray_controller.go:221-252 | on deletion exactly these and the ClusterRole `ray` go, and nothing without a namespace |
| CleanupLaws.FoundAreGone | internal/controller/ray_controller.go:187-252 | no found object with the mark of the respective action is left, except CRDs |
| Cleanup.CleanUntilReleased | internal/controller/ray_controller.go:221-252 | deletion terminates: with finitely many failing calls and user edits the rerun cleanup succeeds, the guarded write takes the finalizer off, the CR is gone from the store, and nothing of it is left if it had a namespace |
| RayApi.RayStore.Update | internal/controller/ray_controller.go:178-182 | the update behind the wait: it goes through only onto the version the copy was read from, NotFound and Conflict otherwise; a terminating CR without finalizer is gone |
| RayApi.RayStore.Edit | api/v1alpha1/ray_types.go:67-68 | a spec edit is admitted exactly if the namespace was empty or stays the same, and otherwise changes nothing |
| LifecycleTheorems.NamespaceIsImmutable | api/v1alpha1/ray_types.go:67-68 | over every run a CR that has a namespace keeps it while it is stored, and a terminating CR stays terminating |
| LifecycleTheorems.OnlyDefaultRay | api/v1alpha1/ray_types.go:67 | over every run no CR of another name than `default-ray` is created |
| RayApi.RayStore.WaitForNamespace | internal/controller/ray_controller.go:169-185 | stops exactly without a namespace, taking the finalizer off under the guard; Conflict and NotFound are ignored |
| LifecycleInvariant.StepKeeps | internal/controller/ray_controller.go:92-145 | every step of users, third parties and operator keeps the invariant of CR history, operands, reconcile under way and notebook role |
| LifecycleInvariant.CleaningLooksRight | internal/controller/ray_controller.go:221-252 | a terminating copy, however old, shows the namespace and uid of everything deployed for the CR |
| LifecycleTheorems.NoLeak | internal/controller/ray_controller.go:169-252 | in every reachable state each operand belongs to the stored CR, which has finalizer and namespace, bears a mark, and lies where cleanup lists; without CR, finalizer or namespace there is none |
| LifecycleTheorems.StaleCopiesAreHarmless | internal/controller/ray_controller.go:169-185 | on copies of any age the wait never changes a stored CR with a namespace and never lets a copy without one through; a current copy without one takes the finalizer off |
| LifecycleTheorems.GateWasPassed | internal/controller/dependencies.go:37-58 | in every run a reconcile at or past the notebook stage found each CRD required by what it rendered |
| LifecycleTheorems.WritesAreGated | internal/controller/ray_controller.go:122-140 | in every run a step that settles the notebook role or deploys, even if it only overwrites, and any step that adds an operator-written object, belongs to a reconcile that passed the gate; only Managed ones add |
| LifecycleTheorems.OnlyManagedWrites | internal/controller/ray_controller.go:254-291 | no step of a Removed reconcile, a cleanup or a third party adds an operator-written object |
| LifecycleDeploys.DeploysRendered | internal/controller/ray_controller.go:122-134 | over every run, told by the fields: past the gate the resources are what the reconcile rendered, in order, less SecurityContextConstraints where unknown; same name, kind and body, the CR's namespace, and part-of=ray on all but CRDs |
| LifecycleDeploys.SuccessDeploysAll | internal/controller/ray_controller.go:131-145 | over every run: after a Managed success that nobody acted on since its deploy action, each object so rendered is in the cluster |
| LifecycleModes.RoleFollowsMode | internal/controller/notebook_rbac.go:40-126 | after any history, since the role was last settled and as long as nobody touched it, no cleanup ran and no attempt for the other mode failed: it exists iff that reconcile was not Removed, and then has the wanted fields |
| LifecycleModes.LastSuccessDecides | internal/controller/ray_controller.go:122-145 | after any such history, failed attempts for the same mode included: the role agrees with the mode of the last successful reconcile iff that one settled it, or the one that settled it later was of the same mode |
| LifecycleModes.RepeatedRemovalIsIdle | internal/controller/ray_controller.go:200-209 | over runs: once a Removed reconcile has succeeded, any number of further ones, wherever they stop, change no operand, add nothing and leave the role absent |
| LifecycleDeletion.DeletionTerminates | internal/controller/ray_controller.go:221-252 | in every run, once more rounds on a terminating CR have ended than failed, it was released at one of them with no operand left, and it never comes back |
| LifecycleDeletion.RoundsAreShort | internal/controller/ray_controller.go:215-252 | a round ends after two steps of the operator at most, and nobody else's step disturbs it |
| LifecycleDeletion.CanAlwaysBeDeleted | internal/controller/ray_controller.go:221-252 | from every reachable state steps lead to the CR being gone with no operand left |
| LifecycleDeletion.OtherKindsMayStay | internal/controller/owned_gc.go:40-54 | a successful cleanup may leave an object of a kind that is not listed |
| LifecycleExample.LastSuccessDoesNotDecide | internal/controller/ray_controller.go:122-140 | a concrete run without interference in which the last successful reconcile was Managed and the role is gone |
| LifecycleExample.FailedAttemptDecides | internal/controller/notebook_rbac.go:72-96 | a concrete run without interference in which the role is gone after a failed attempt to delete it, though none got past the notebook stage since the Managed success |
| LifecycleExample.ManagedRunDeploys | internal/controller/ray_controller.go:122-145 | a concrete undisturbed run from creating the CR to a Deployment running in its namespace with its label |
| Render.ForceNamespacedResources | internal/controller/render.go:83-93 | in place, sets the namespace of exactly the objects that have one, unless the namespace is empty |
| Render.StampPartOfLabels | internal/controller/render.go:95-113 | in place, adds the part-of label to everything but CRDs, making the label map if there is none |
| Render.PassesCommute | internal/controller/render.go:69-72 | the passes commute, and running them again with another namespace leaves the later one that is not empty |
| Render.PassesKeepTheRest | internal/controller/render.go:83-113 | order, identity, other labels, CRD labels and the absence of a namespace are kept |
| Render.PassesMake | internal/controller/render.go:83-113 | told by the fields, for every kind: the CR's namespace wherever there is one, part-of=ray beside the other labels unless it is a CRD |
| Render.OperandKindsAre | internal/controller/owned_gc.go:34-50 | which API groups and kinds are listed by cleanup, and which are CRDs |
| Render.ManifestRendered | internal/controller/render.go:54-72 | a manifest is rendered from base, path, context directory and source path, in that order, and made into the operator's own |
| Render.PassesPrepare | internal/controller/render.go:83-113 | everything of an operand kind bears the label that cleanup tests and is in the namespace that cleanup lists |
| Render.RenderingPrepares | internal/controller/render.go:55-75 | the same for everything accumulated over all manifests |
| Render.Request.RenderKustomize | internal/controller/render.go:38-81 | resources of all manifests in order are appended, from the writable copy if there is one; an error leaves the request not generated |
| Render.Request.ManifestInitAction | internal/controller/ray_controller.go:274-291 | Removed has no manifests and no resources, otherwise there is the one overlay |
| PlatformFilter.FilterInPlace | internal/controller/platform_filter.go:63-70 | the aliasing filter leaves the filtered sequence at the front of the array and does not touch what lies behind it |
| PlatformFilter.FilterPicks | internal/controller/platform_filter.go:63-70 | the filtered sequence is the order-preserving subsequence at exactly the non-SCC positions |
| PlatformFilter.FilterIdempotent | internal/controller/platform_filter.go:63-70 | filtering twice is filtering once |
| PlatformFilter.Filter.Apply | internal/controller/platform_filter.go:42-74 | the mapper's answer is taken once and decides this and every later call: with SCCs known nothing is dropped, otherwise no object of that group and kind remains |
| PlatformFilter.FirstAnswerDecides | internal/controller/platform_filter.go:43-61 | over every sequence of calls the first answer decides what each call does |
| Dependencies.RequiredCertManagerGVKs | internal/controller/dependencies.go:60-72 | the cert-manager kinds that occur among the resources, each once, in fixed order |
| Dependencies.CertManagerRequirement | internal/controller/dependencies.go:37-58 | passes only if the CRDs issuers.cert-manager.io and certificates.cert-manager.io were seen as far as resources need them, fails only if a needed one was missed or a call failed, and writes nothing |
| Params.ParseParams | internal/controller/params.go:195-216 | line by line with carriage returns dropped, key up to the first `=`, later lines winning, error on an overlong line |
| Params.ParsedKeysFit | internal/controller/params.go:202-210 | no parsed key has `=` or a newline, no parsed value a newline |
| Params.PrefixParses | internal/controller/params.go:195-216 | every part from the front of a file that can be parsed can be parsed |
| Params.RoundTrip | internal/controller/params.go:175-181 | for every map and every order of printing: parsing gives the map back iff every entry fits on a line |
| Overrides.UpdateParam | internal/controller/params.go:218-226 | reports a change exactly if the map changed; an absent key is not added with an empty value |
| Overrides.PrintParams | internal/controller/params.go:175-181 | prints each entry once, in some order |
| Overrides.File.ApplyParams | internal/controller/params.go:132-193 | the file is left alone and the merge changes nothing, or it holds the merged map in some order; missing files are fine, unparsable ones untouched; reading, creating, writing and renaming may fail, and then the old file is still there and no temporary one |
| Overrides.LayeredOverride | internal/controller/params.go:148-163 | each key reads as the last extra map says, else the non-empty image value on a key in the file, else as before; and which keys there are |
| Overrides.MergeIdempotent | internal/controller/params.go:148-163 | applying the same layers again changes nothing |
| Overrides.RereadIsMerged | internal/controller/params.go:165-192 | the file left behind parses to the merged map if its entries fit |
| Overlay.File.SetOverlayNamespace | internal/controller/params.go:81-106 | replaces all matches of the pattern by the namespace line, or appends one; nothing without a namespace or a file; a failing write leaves the front of the new text |
| OverlayPattern.PatternMatches | internal/controller/params.go:81 | told by the characters: the pattern matches exactly the key, blanks, and a word that ends there |
| OverlayPattern.MatchesAtLineStarts | internal/controller/params.go:81 | there is a match iff one begins at the beginning of some line |
| OverlayPattern.LineIs | internal/controller/params.go:97-103 | the line that is written, character by character |
| OverlayPattern.BracedMeans | internal/controller/params.go:97-100 | `${name}` stands for the match if the name is 0 and for nothing otherwise |
| OverlayPattern.NamedMeans | internal/controller/params.go:97-100 | the same for `$name`, up to the first character that no name has |
| OverlayPattern.PlainMeans | internal/controller/params.go:97-100 | `$$` stands for a dollar, and what begins no reference for itself |
| OverlayPattern.UnclosedMeans | internal/controller/params.go:97-100 | a brace that is not closed begins no reference |
| Overlay.ExpandIsIdentity | internal/controller/params.go:97-100 | a replacement text stands for itself, whatever was matched, iff it has no reference in it |
| OverlayLaws.Frame | internal/controller/params.go:97-103 | for every namespace: outside the matches every character is kept, and each match becomes the expanded line; a plain namespace also leaves the matches where they were |
| OverlayLaws.SetThenGet | internal/controller/params.go:81-106 | every match afterwards reads the plain namespace, and there is one; iff the file has no dangling key line or the namespace is the key itself |
| OverlayLaws.GetIsLaw | internal/controller/params.go:81-106 | reading back what was set holds for all files without a dangling key line iff the namespace is one word without template references |
| OverlayLaws.SetTwice | internal/controller/params.go:81-106 | setting a second namespace leaves no trace of a clean first one, and setting one again changes nothing, if the file has no dangling key line or there was no first; if it has one, a first one without blanks does leave a trace |
| OverlayLaws.SetTwiceIsLaw | internal/controller/params.go:97-100 | overwriting clean earlier namespaces holds for all files without a dangling key line iff the later one is not empty and has no template references |
| OverlayRepairs.FirstIsLaw | internal/controller/params.go:97-103 | being overwritten by every later namespace without references, in all files without a dangling key line, holds iff the earlier one is clean |
| OverlayRepairs.SameAfterSetting | internal/controller/params.go:81-106 | setting a plain namespace makes two files the same iff they have the same outline; with a dangling key line in one of them, iff they are the same already |
| OverlayRepairs.EmptyOutline | internal/controller/params.go:101-105 | an empty file can stand for one without a dangling key line iff that is empty too or is a newline, one match and a newline |
| OverlayLaws.DanglingExample | internal/controller/params.go:101-103 | the file `namespace:` breaks on the second run |
| OverlayLaws.DollarExample | internal/controller/params.go:97-100 | setting `$0` in the file `namespace: a` repeats the old line |
| WritableManifests.Tree.Base | internal/controller/params.go:108-130 | the tree is copied once and then reused; a copy that failed half way is reused as it is |
| WritableManifests.Tree.ApplyImageParams | internal/controller/params.go:48-79 | rewrites params and, if that succeeds, overlay of the copy, and nothing when Removed, under every failure of the file system |
| WritableManifests.TargetHolds | internal/controller/params.go:41-78 | told by the names: after an application the key namespace, the two image keys from their own variables, and everything else |
| WritableManifests.ParamsOverRun | internal/controller/params.go:132-193 | over every run of failing and succeeding calls, from whatever params some call works on: they parse, as those of some namespace set since or as they were; after a success as those of the latest |
| WritableManifests.DeployedImageIsReported | internal/controller/releases.go:110-129 | after a success on a complete or partial copy: latest namespace, other keys as the copy started with, and the deployed KubeRay image is the one the status is computed from iff the copy started with what it comes from |
| WritableManifests.TargetsAgree | internal/controller/params.go:148-163 | incomplete params lead to the same result as complete ones iff everything they lack is overridden |
| WritableManifests.OverlayFollows | internal/controller/params.go:69-79 | after a success, from whatever overlay some call works on: as if only the latest namespace had been set in it; right iff it has the right outline; read back iff it has no dangling key line |
| WritableManifests.HalfCopyIsKept | internal/controller/params.go:111-122 | over every run neither file comes or goes: each is there iff the copy was made with it |
| WritableManifests.MissingIsAccepted | internal/controller/params.go:132-140 | without params an undisturbed call succeeds |
| WritableManifests.HalfCopyExample | internal/controller/params.go:108-130 | for every tree and every part of it without params: a run that leaves that part and then succeeds without params |
| WritableManifests.TruncatedOverlayIsKept | internal/controller/params.go:105 | over every run: an overlay truncated by a failed write is right after later successes iff the right one has nothing but a namespace line |
| WritableManifests.TruncatedExample | internal/controller/params.go:105 | for every other overlay without a dangling key line: a run that truncates it and then succeeds with a wrong one |
| Releases.VersionIsTag | internal/controller/releases.go:131-148 | the version is v iff the reference without digest is a name, a colon and v, where v has no slash or colon |
| Releases.TagRoundTrip | internal/controller/releases.go:131-148 | printing name, tag and optional digest, with any white space around, and parsing gives the tag |
| Releases.UntaggedHasNoVersion | internal/controller/releases.go:141-147 | an untagged name has no version, even behind a registry with a port |
| Releases.VersionMissing | internal/controller/releases.go:73-83 | the image is the one from the named variable, else the vendored one under its key; no version iff neither has a tag; the injected one is preferred |
| Status.Request.ManagementStateAction | internal/controller/ray_controller.go:254-272 | sets the Removed flag, and generated when Removed |
| Status.Request.ReleasesAction | internal/controller/releases.go:35-44 | resets the releases to the module's own |
| Status.Request.DeploymentStatusAction | internal/controller/ray_controller.go:293-313 | Removed counts as available, otherwise the framework's finding or error |
| Status.Request.DistributionAction | internal/controller/status.go:31-62 | told by the ConfigMap's fields, with the deployments available: name and version are taken over; nothing given is Standalone 0.0.0; a version over 64 characters or refused by the parser changes nothing; fails only if a call fails |
| Status.Request.PlatformReleaseAction | internal/controller/releases.go:46-71 | stamps the platform version read, unless Removed, unavailable or empty |
| Status.Request.SettleActions | internal/controller/status.go:70-89 | not degraded, and the generation observed |
| Status.Handshake | internal/controller/releases.go:35-71 | a platform entry exactly when not Removed, available and a version read; it is that version; no name twice |
| PlatformConfig.EnqueuesWhatMatters | internal/controller/configmap.go:44-74 | with the CR found an event asks for a reconcile iff the ConfigMap is one whose content the CR depends on |
| StatusRuns.DroppedEventsDoNotMatter | internal/controller/configmap.go:44-74 | a ConfigMap whose event the mapper drops is not the one that the cached CR looks at |
| StatusRuns.StepKeeps | internal/controller/status.go:31-62 | every edit, every change and event reaching the cache or being handled, and every stage of a reconcile keeps the status in line with the cached ConfigMaps, or a request pending or an event on its way |
| StatusRuns.RestAgrees | internal/controller/configmap.go:76-158 | when all has arrived and is at rest and the CR has a namespace, the last reconcile completed and status.distribution is what the ConfigMap's fields say now, however late events and copies were; if its version is unusable, it is what that reconcile's copy had |
| StatusRuns.UndisturbedReconcile | internal/controller/ray_controller.go:122-145 | the whole status that an undisturbed reconcile leaves, from any state, told by the fields |
| StatusRuns.UnusableKeepsCopy | internal/controller/status.go:40-56 | an undisturbed reconcile from any state: with an unusable version the stored distribution stays iff the copy's is the same |
| StatusRuns.HandshakeIsSafe | internal/controller/releases.go:46-71 | after every completed reconcile the platform entry is there exactly if that reconcile may report it, with the value it read |

## Left out

- LifecycleTheorems.NoLeak: the promise is for the seven kinds that the operator lists itself; other kinds depend on the framework's collector.
- OverlayLaws.SetTwice: nothing is said about a first namespace that begins with blanks in a file with a dangling key line.
- LifecycleModes.RoleFollowsMode: what a failed attempt for the other mode, a cleanup or a third party made of the role is open.
- Overlay.Expand: only ASCII letters, digits and `_` count as name characters of a reference; Go also takes other letters.
- Params.RoundTrip: text is a sequence of characters, and the scanner's limit counts characters where the code counts bytes.
- Status.Request.DistributionAction: the semver parser is any predicate; the limit of 64 counts characters.
- WritableManifests.ParamsOverRun: for namespaces with which all entries fit on lines.
- WritableManifests.OverlayFollows: for plain namespaces, and from a point after which no overlay write fails half way.
- WritableManifests.Tree.Base: a stat that fails although the directory exists, and a process that dies in the middle of a call.
- Cleanup.CleanUntilReleased: the loop stands for the framework's requeueing.
- The lifecycle and the status are two step systems; the first leaves the status out, the second the cluster.
- Reconciles that read a CR from a cache after its final removal, the kustomize engine, server-side apply, the condition aggregator and the REST mapper are not part of this model.
- Which watch events start a reconcile is modelled for the ConfigMap and the CR in the status system only; in the lifecycle a reconcile may start at any time, so the predicate for deletion timestamps is not needed there.
- The nil checks of deleteOwnedOperands, the accessors of the CR's status, the upgrade hook, conditions other than availability and degraded, and log messages.
- Flags, TLS setup and manager start in cmd, generated code, YAML manifests, charts, scripts and tests.
