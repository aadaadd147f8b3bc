# Frontend Forge: what the manifest compiler, the migrator and the extension protocol guarantee

Frontend Forge turns a declarative description of console menus and pages into a
frontend bundle. Two resource kinds describe one: `FrontendIntegration` (FI) and
`FrontendExtension` (FE). This project models, in Dafny, the parts of the repository
that decide things, and proves what they promise.

**The manifest compiler** (`Resolve`, `ResolveErrors`, `ResolvePageOrder`, `Render`,
`ManifestLinks`, `ManifestContent`). `resolve_spec` validates a two-level menu and
its pages inside its loops; here the loops are proved equivalent to one loop-free
predicate, `Acceptable`, and each error is shown to be a reason to reject. Rendering and page
listing de-duplicate pages by different keys and are proved to agree. Every accepted
manifest is well linked, and its entries, routes and pages are those of the spec's
own menus, in their order and in the words they are spelled with.

**The translation FI to FE** (`CustomResources`, `ResourceContent`, `FiToFe`,
`FiToFeMeaning`, `MigratedFe`). Migrating an integration and compiling the result means the same as
compiling the integration, with the exact condition for when both are accepted; the
package metadata are the integration's, and policy and publish intent reach the
controller as a well-formed request.

**The migrator** (`Migrator`, `MigratorRuns`, `MigratorAlone`). First as a program
on a mutable apiserver, then as a process that may stop at any step while others
write too: no integration is ever lost, and nobody else's extension is touched.

**The extension protocol** (`FeTypes` to `FeSolo`). The apiserver is a map of
objects with atomic operations. `FeProtocol` has users, reconciles that start from a
cached object of any age, packager and publisher pods, downloads and garbage
collection as programs whose steps interleave, any of which may crash. `FeSafety`,
`FeOrigin`, `FeObserved` and `FeAttempts` prove invariants of all runs, and
`FeProgress` bounds the reconciles until packaging is decided. `FeDelivery` shows
that the pods and the download also do their work: what is asked for is packaged,
found, served and published. `FeReconcile` has the undisturbed reconcile as a
function and as the source's sequence of reads and writes; `FeStable` and
`FeTerminal` prove what repeated reconciles converge to, and `FeStaleVersion` where
that ends; `FeSolo` shows that the interleaved program, run alone, is that
reconcile. `MergePatch` and `StatusPatch` connect typed statuses with the JSON merge
patch (RFC 7396) that the controller sends, `StatusJson` with its field names, and
`FeMeaning` says what the written conditions and labels tell. `FeApi` shows that the
controller honours exactly the requests that the HTTP API writes.

**The FI runtime** (`FiRuntime`, `FiOutcome`): runners, reconciles and spec edits
interleaved, the coherence of the bundle they leave, and what each of them ends in
when nobody else moves.

**Machinery** (`Names`, `CanonicalJson`, `ArtifactGc`, `Roles`, and the helpers
`Prelude`, `Sequences`, `Text`).

SHA-256, the build service, `ksbuilder`, validation messages and JSON printing are
parameters (fields of `World`, `Env`) about which nothing is known beyond what a
lemma requires. Digests are collision free where a lemma says `CollisionFree`; the
8- and 12-character prefixes in names are never assumed injective. Clocks and uids
are parameters of the steps that use them.

Results that a reader of the code may not expect:

- A spec with two pages of one referenced key is rejected as an FI, yet its migrated
  FE renders: the translation forgets the second page
  (`FiToFeMeaning.DuplicatePageIsForgotten`). `MigrationPreservesMeaning` has the
  exact condition.
- While no artifact is available, one status write is not always a fixed point: it
  forgets the stored artifact key, so the next write drops a stored publish that was
  kept for that key alone. `FeStable.NotReadyConverges` says exactly when.
- The hash in the name of a publish Job is cut for extension names of 44 characters
  or more, and gone from 51 on (unpublish: 42 and 49): two requests share a Job name
  exactly when what is left of their hashes agrees (`Names.PublishNamesCollide`,
  `Names.UnpublishNamesCollide`). From 59 characters on, and only then, a publish
  and an unpublish Job share one name (`Names.KindsShareName`), and an unpublish
  request is answered with the outcome of the publish Job
  (`FeReconcile.UnpublishReportsPublishJob`).
- Packaging reaches Ready or Failed in a bounded number of reconciles if the names
  of the attempts are free (`FeProgress.DecidesInTime`). A name held by a leftover
  Job of an earlier extension of the same name is never overcome: the controller
  reports Packaging for ever and starts nothing (`FeProgress.LeftoverIsStuck`,
  `FeProgress.HeldNameIsNeverOvercome`).
- A reconcile from a cached object that predates the terminal status publishes again
  once the Job has been collected (`FeStaleVersion.OldVersionPublishesAgain`); from
  any object that records it, none does (`FeTerminal.DoneStaysDone`).
- The order of steps in `spec/fi-to-fe-migration.md` is out of date: the code writes
  the publish intent before it deletes the FI, which is what the safety of a stop in
  between rests on.
- A merge patch does not remove what the desired spec no longer mentions, so
  migrating again onto an edited extension replaces its spec exactly when nothing is
  left over (`MergePatch.ReplacesUnlessLeftover`).

## Model

| member | source | states |
|---|---|---|
| Resolve.ResolveSpec | crates/manifest/src/v1/resolve.rs:85-213 | compiling succeeds exactly on `Acceptable` specs, with the bindings and menus that the spec determines; a `DuplicateMenuRoute` can come only from two children of one organization menu with one key, and every other error holds of the spec |
| ResolveErrors.ErrorsAreReal | crates/manifest/src/v1/resolve.rs:85-432 | whatever error explains a spec, the spec is not acceptable: no error that the compiler may report fits a spec it accepts, down to the placement that a page refuses and the menu that asks for it |
| Resolve.ResolveOrganization | crates/manifest/src/v1/resolve.rs:145-208 | the inner loop accepts an organization menu exactly when the menu is well formed on its own: a route clash with an earlier menu is impossible |
| Resolve.ResolveTopMenu | crates/manifest/src/v1/resolve.rs:92-144 | one turn of the outer loop keeps the sets of bound keys and routes equal to those of the menus seen |
| Resolve.RoutesOfDistinctSlots | crates/manifest/src/v1/resolve.rs:284-315 | menus in different slots never share a route, since keys contain no separator |
| Resolve.ResolvePages | crates/manifest/src/v1/resolve.rs:222-245 | page resolution succeeds exactly when all referenced pages are well formed and unique, and indexes exactly those |
| Resolve.CollectReferencedPageKeys | crates/manifest/src/v1/resolve.rs:247-282 | the keys collected by the loops are those the menus refer to |
| Resolve.BindPage | crates/manifest/src/v1/resolve.rs:284-315 | a page binds exactly when its route is free, it exists and it accepts the placement |
| Resolve.ResolvePageKey | crates/manifest/src/v1/resolve.rs:324-342 | an explicit page key must be a valid key, and a missing one falls back to the menu key unless page keys are required |
| Resolve.ValidatePageShape | crates/manifest/src/v1/resolve.rs:378-432 | a page passes exactly when its configuration is that of its type, columns and placements not empty |
| ResolvePageOrder.ResolutionIgnoresPageOrder | crates/manifest/src/v1/resolve.rs:85-282 | acceptance and the resolved menus depend only on the referenced pages, and not on their order |
| Render.RenderV1Manifest | crates/manifest/src/v1/render.rs:5-64 | rendering succeeds exactly on the specs that resolve, so the missing-configuration errors of page rendering never occur, and yields the manifest whose menus, routes and pages `ManifestContent` describes |
| Render.ResolveV1Pages | crates/manifest/src/v1/resolve.rs:5-40 | page listing succeeds on the same specs and lists the same bindings, although it de-duplicates by a pair and rendering by a string |
| Render.PageIdInjective | crates/manifest/src/v1/render.rs:88-95 | page ids of one manifest are equal only for equal placement and suffix |
| Render.SeenById | crates/manifest/src/v1/render.rs:66-78 | having seen the page id is having seen the page |
| Render.RenderPage | crates/manifest/src/v1/render.rs:163-200 | a page renders exactly when the configuration of its type is there |
| ManifestLinks.ManifestIsWellLinked | crates/manifest/src/v1/render.rs:5-138 | route paths, page ids and menu names per placement are distinct, routes and pages name the same ids, and every nested menu's parent is an organization menu emitted earlier |
| ManifestLinks.ParentsLink | crates/manifest/src/v1/render.rs:80-141 | the parent of every emitted menu is a placement or an earlier organization menu |
| ManifestLinks.PagesLink | crates/manifest/src/v1/render.rs:5-78 | page ids are distinct and are exactly the ids that routes lead to |
| ManifestLinks.RoutesLink | crates/manifest/src/v1/render.rs:97-111 | route paths are pairwise distinct across placements |
| ManifestLinks.NamesLink | crates/manifest/src/v1/render.rs:80-141 | menu names are unique within a placement |
| ManifestLinks.ListingMatchesManifest | crates/manifest/src/v1/resolve.rs:5-40 | the listed pages and the rendered pages correspond one by one in title, type and content |
| ManifestLinks.OnePagePerRoute | crates/manifest/src/v1/render.rs:5-78 | for integrations there are as many pages as routes, in the same order |
| ManifestLinks.FirstBindingsSpec | crates/manifest/src/v1/render.rs:66-78 | the bindings kept are the earliest of each page, one for each |
| ManifestContent.MenusShowTheSpec | crates/manifest/src/v1/render.rs:80-161 | the k-th menu entry is that of the k-th menu or child: its display name as title, its icon or "GridDuotone", its name and parent spelled out, and the extension module under cluster and workspace only |
| ManifestContent.RoutesShowTheSpec | crates/manifest/src/v1/render.rs:88-111 | the k-th route is that of the k-th page menu or child: the prefix of its placement, the route namespace and the menu keys, leading to the page id with the placement's word |
| ManifestContent.PagesShowTheSpec | crates/manifest/src/v1/render.rs:163-200 | every page is the configuration of the spec's page that the first menu leading to its id refers to, under the page's own title or that menu's |
| ManifestContent.ListingShowsTheSpec | crates/manifest/src/v1/resolve.rs:29-83 | every listed page shows the title, level, placement, suffix and action key of a menu and the spec's page it refers to |
| CustomResources.FrontendExtensionMenus | crates/manifest/src/lib.rs:276-309 | the nested loops expand every menu over its placements in order, and fail at the first menu without one |
| CustomResources.RenderExtensionManifest | crates/manifest/src/lib.rs:329-346 | an integration renders exactly when its version is an alias of v1 and its spec is acceptable |
| CustomResources.RenderFrontendExtensionManifest | crates/manifest/src/lib.rs:348-373 | an extension renders exactly when its menus have placements, its version is a v1 alias and its expansion is acceptable |
| CustomResources.ResolveFrontendExtensionPages | crates/manifest/src/lib.rs:375-394 | an extension's pages are listed exactly when it renders |
| ResourceContent.IntegrationShows | crates/manifest/src/lib.rs:156-243 | what an integration gives its manifest: the header with its annotated description, and its menus and pages field by field, each menu leading to the page of its own key |
| ResourceContent.ExtensionShows | crates/manifest/src/lib.rs:201-327 | what an extension gives its manifest: the header with package name and localized texts, each menu once for each of its placements in order, and its pages with their titles and placements |
| CustomResources.AliasMeans | crates/manifest/src/lib.rs:329-373 | the versions rendered are the spellings of v1, whatever their case and surrounding space |
| CustomResources.LocalizedMeans | crates/manifest/src/lib.rs:311-317 | a localized text is the English one, else the Chinese one, else that of the least locale |
| FiToFe.FrontendPagesFromFi | crates/frontend-forge-controller/src/bin/fi_to_fe_migrator/frontend_extension.rs:74-91 | the loops produce each used page once, in key order, with its placements in order of first use |
| FiToFe.InsertFrontendPage | crates/frontend-forge-controller/src/bin/fi_to_fe_migrator/frontend_extension.rs:93-108 | one insertion extends the collected pages by exactly one use |
| FiToFeMeaning.MigrationPreservesMeaning | crates/frontend-forge-controller/src/bin/fi_to_fe_migrator/frontend_extension.rs:3-108 | an integration renders exactly when its migrated extension does and its referenced page keys are unique; the manifests then agree in names, locales, menu tree and routes, and each route leads to a page of the same content |
| FiToFeMeaning.DuplicatePageIsForgotten | crates/frontend-forge-controller/src/bin/fi_to_fe_migrator/frontend_extension.rs:93-108 | uniqueness is needed: an integration that is rejected for a duplicate page migrates to an extension that renders |
| FiToFeMeaning.AcceptanceAgrees | crates/manifest/src/lib.rs:226-274 | corresponding compiler inputs are accepted together, up to unique page keys |
| MigratedFe.MigratedCarries | crates/frontend-forge-controller/src/bin/fi_to_fe_migrator/frontend_extension.rs:3-183 | the migrated extension carries the integration's display name, description and creator or their fallbacks, the configured version and policy, and the labels and annotations that name its origin |
| MigratedFe.PolicyIsTheTarget | crates/frontend-extension-controller/src/publish.rs:217-258 | without target annotations the controller resolves requests for a migrated extension to exactly the migrator's configured target |
| MigratedFe.IntentIsARequest | crates/frontend-forge-controller/src/bin/fi_to_fe_migrator/publish.rs:36-55 | the migrator's publish intent is a request of the form the API writes, for the stored source and generation, any artifact of them and the configured target |
| MigratedFe.IntendedIsWellFormed | crates/frontend-forge-controller/src/bin/fi_to_fe_migrator/publish.rs:64-72 | and a well-formed one, whose id is the migrator's mark, the extension's name and the start of the source hash |
| MigratedFe.MigratedNameFits | crates/frontend-forge-controller/src/bin/fi_to_fe_migrator/naming.rs:3-15 | the extension's name fits 63 characters; up to 60 the integration's name is kept whole, beyond that a piece of its hash ends the name |
| Names.BoundedName | crates/common/src/lib.rs:359-397 | the compacting loop computes the squeezed, trimmed and cut name |
| Names.BoundedNameIsClean | crates/common/src/lib.rs:359-397 | every bounded name is a non-empty run of lower-case letters, digits and single inner hyphens within its bound (section 2.1 of RFC 1123) |
| Names.BoundedNameIdempotent | crates/common/src/lib.rs:359-397 | bounding a bounded name changes nothing, for every positive bound |
| Names.BoundedNameKeepsCore | crates/common/src/lib.rs:359-397 | a bounded name consists of the letters and digits of what it was made from, in order and lower case, up to the bound; without any it is "fi" |
| Names.AttemptRoundTrip | crates/frontend-extension-controller/src/package.rs:47-52 | the attempt parsed from a package Job's name is the one it was named for, for every extension name, key and attempt from 1 to 2^32-1 |
| Names.PackageJobNameIsLabel | crates/common/src/lib.rs:321-324 | package Job names are DNS labels of at most 63 characters |
| Names.ShortNamesInFull | crates/common/src/lib.rs:279-342 | for extension names of up to 27 characters the package, publish and unpublish Job names, spelled out |
| FeTypes.ArtifactNameInFull | crates/common/src/lib.rs:345-349 | an artifact's ConfigMap is named for the package and the start of the artifact key; a long package name is cut, never the key |
| Names.PublishNamesCollide | crates/common/src/lib.rs:327-333 | two publish requests of one extension share a Job name exactly when their hashes agree in the characters that fit behind the name: all eight up to a name of 43, none from 51 on |
| Names.UnpublishNamesCollide | crates/common/src/lib.rs:336-342 | the same for unpublish requests, two characters earlier |
| Names.KindsShareName | crates/common/src/lib.rs:327-342 | a publish and an unpublish Job share a name exactly for extension names of at least 59 characters, whatever the requests |
| Names.OneJobForTwoRequests | crates/common/src/lib.rs:327-342 | a concrete name and two different requests with one publish Job name, and one that an unpublish shares |
| CanonicalJson.CanonicalFormDecidesEquivalence | crates/common/src/lib.rs:119-135 | two documents have one canonical form exactly when they are equal up to member order at every depth (section 4 of RFC 8259) |
| CanonicalJson.CanonicalizeIdempotent | crates/common/src/lib.rs:119-135 | canonicalizing twice is canonicalizing once, for any document |
| CanonicalJson.CanonicalIsSorted | crates/common/src/lib.rs:119-135 | keys are sorted at every depth |
| CanonicalJson.CanonicalKeepsLast | crates/common/src/lib.rs:119-135 | canonicalizing keeps every key once, with the canonical form of its last value |
| CanonicalJson.ContentHashNamesDocument | crates/common/src/lib.rs:137-166 | with a faithful printer and a collision-free digest, a content hash names a document up to member order |
| ArtifactGc.SelectsOldestBeyondRetention | crates/frontend-extension-controller/src/artifact.rs:64-117 | for distinct names, collection selects only owned ConfigMaps outside the keep set and spares exactly as many of these as the retention says, or all if there are fewer |
| ArtifactGc.SparesTheNewest | crates/frontend-extension-controller/src/artifact.rs:95-107 | on timestamps and names: no ConfigMap spared in favour of the retention is older than a selected one, one without a time counts as oldest, and of equal times the lesser name goes first |
| ArtifactGc.CurrentArtifactsStay | crates/frontend-extension-controller/src/artifact.rs:64-81 | the ConfigMap that the status names and the one of the current source are never selected |
| Text.LeOnCharacters | crates/frontend-extension-controller/src/artifact.rs:95-100 | the order of names is that of their first differing characters, a prefix coming first |
| ArtifactGc.SelectionIgnoresListingOrder | crates/frontend-extension-controller/src/artifact.rs:83-107 | with distinct names the selection does not depend on the listing order |
| ArtifactGc.RerunSelectsNothing | crates/frontend-extension-controller/src/artifact.rs:83-107 | rerun on the survivors, collection selects nothing |
| ArtifactGc.GcArtifactConfigMaps | crates/frontend-extension-controller/src/artifact.rs:17-62 | the deleting loop removes exactly the selected ConfigMaps that are still there |
| Roles.AggregateRoleTemplates | crates/extension-package-core/src/roles.rs:203-283 | for each scope and action the loops collect exactly what the pages grant: a CRD page its key and reading for viewing, everything for managing, in the scope of its placement or its CRD; an embedded page its key for viewing, in the cluster or workspace it is placed in |
| Roles.AggregationIgnoresOrder | crates/extension-package-core/src/roles.rs:203-283 | aggregation depends on which pages there are, not on their order |
| Roles.ManageKeysAreViewKeys | crates/extension-package-core/src/roles.rs:215-272 | in every scope the manage keys are among the view keys |
| Roles.RoleTemplateChartOf | crates/extension-package-core/src/roles.rs:121-162 | a chart emits exactly one template for each scope it covers and action with a key, with name, category, dependency and guard spelled out, installs exactly the categories of its scopes in which a page grants something, and the template a manage template depends on is emitted earlier |
| Roles.CategoriesAreInstalled | crates/extension-package-core/src/roles.rs:90-108 | every category that a template refers to is installed by one of the two charts |
| MergePatch.MergeIdempotent | crates/frontend-forge-controller/src/bin/fi_to_fe_migrator/migration.rs:89-106 | applying a merge patch twice is applying it once (section 2 of RFC 7396) |
| MergePatch.ReplacesUnlessLeftover | crates/frontend-forge-controller/src/bin/fi_to_fe_migrator/migration.rs:89-106 | a patch without nulls makes the target equal to it exactly when the target has no member that the patch does not mention |
| StatusPatch.BuildStatusPatch | crates/frontend-extension-controller/src/status.rs:472-533 | editing the serialised status in place yields the patch that nulls absent sections and the named last fields |
| StatusPatch.PatchMergesStatus | crates/frontend-extension-controller/src/status.rs:401-410 | merging that JSON patch into the stored status document is the typed merge, which clears absent sections but lets nested optional fields survive |
| StatusJson.StatusShows | crates/frontend-extension-controller/src/status.rs:472-533 | the serialised status has every field under its own name with its own value, absent options are left out, and nothing else is there |
| StatusJson.PatchedDocumentShows | crates/frontend-extension-controller/src/status.rs:401-410 | and so has the stored document after the controller's patch, for the merged status |
| FeReconcile.LatestAttempt | crates/frontend-extension-controller/src/package.rs:8-66 | the attempt chosen is one of the listed Jobs of this extension and key label, and outranks each of them by number, then creation, then name |
| FeReconcile.LatestIsUnique | crates/frontend-extension-controller/src/package.rs:54-66 | and there is only one such attempt |
| FeReconcile.LimitIsTestedBefore | crates/frontend-extension-controller/src/controller.rs:278-307 | the limit test before creating an attempt is dead exactly when at least one attempt is allowed: only then does every reconcile that gives up do so on a finished attempt at the limit |
| FeReconcile.MissingArtifactDecides | crates/frontend-extension-controller/src/controller.rs:137-307 | without a valid artifact at either read, a reconcile creates an attempt exactly when there is none or the Job of the latest has ended below the limit, as its conditions and counters say, waits exactly for a Job that has not ended, and gives up exactly at the limit, with that attempt's own reason |
| FeReconcile.ApiServer.Reconcile | crates/frontend-extension-controller/src/controller.rs:35-336 | undisturbed, the sequence of reads and writes transforms the cluster as `ReconcileSpec` says |
| FeReconcile.ApiServer.SyncPublish | crates/frontend-extension-controller/src/publish.rs:23-88 | syncing publish adds a Job exactly when the request is accepted, none has its name and it is not recorded as finished; its task asks for the annotated request, the artifact's digest, the ConfigMap that was read and the annotated target or the policy's; what is reported is Succeeded and active, Failed with the Job's message, Running or Pending exactly as that Job's conditions and counters say |
| FeReconcile.ApiServer.SyncUnpublish | crates/frontend-extension-controller/src/unpublish.rs:17-76 | the same for unpublish: the Job asks for the annotated request, extension name or the package's, and target |
| FeReconcile.ApiServer.PatchFeStatus | crates/frontend-extension-controller/src/status.rs:380-447 | a stale status changes nothing; a current one is merged, and the labels follow the stored status |
| FeReconcile.ApiServer.CreateOrGetJob | crates/common/src/lib.rs:253-276 | an existing Job of the name is returned as it is and no Job changes; otherwise the Job is added under its name with its task |
| FeReconcile.TasksAsk | crates/frontend-extension-controller/src/publish.rs:307-446 | the tasks of publish and unpublish Jobs say what the annotations, the ConfigMap that was read and the policy ask for |
| FeReconcile.UnpublishReportsPublishJob | crates/frontend-extension-controller/src/unpublish.rs:17-76 | for names of 59 characters or more, an unpublish request starts nothing while a publish Job is there and reports that Job's outcome as its own |
| FeStatusRules.ResolvePublish | crates/frontend-extension-controller/src/publish.rs:23-165 | a request is stale exactly when it names a generation, source or digest that is not current, rejected exactly when it is not stale but names neither source nor digest or no valid target, and otherwise accepted with the artifact's digest |
| FeStatusRules.RejectionSays | crates/frontend-extension-controller/src/publish.rs:99-165 | a rejected request is stored as failed under its id, with the reason that its annotations and the policy give |
| FeStatusRules.StatusReportsJob | crates/frontend-extension-controller/src/publish.rs:448-480 | the publish status made from a Job has the phase, times, reference and error that the Job's conditions and counters say |
| FeTypes.PhaseMeans | crates/common/src/lib.rs:195-225 | a Job is complete exactly when a condition says Complete, or no terminal condition is true, none is active and one has succeeded; failed exactly when it is not complete and a condition or the counters say so; running exactly when no terminal condition is true and one is active; pending otherwise |
| FeTypes.MessageMeans | crates/common/src/lib.rs:227-238 | a Job's message is the message or else the reason of its first Failed condition |
| FeTypes.ArtifactMetadata | crates/frontend-extension-controller/src/artifact.rs:119-154 | an artifact ConfigMap is valid exactly when source, key, metadata and digest all agree with its bytes |
| FeStable.Stabilises | crates/frontend-extension-controller/src/status.rs:380-533 | with identity, Jobs and artifact frozen and nothing to create, two writes reach an object that no further reconcile changes; the labels then say what the status says; one write is enough exactly unless a kept publish is dropped |
| FeStable.NotReadyConverges | crates/frontend-extension-controller/src/status.rs:169-189 | while the artifact is missing, the second write changes something exactly when the first kept a publish for the artifact key it forgets |
| FeStable.OneWriteIsNotEnough | crates/frontend-extension-controller/src/status.rs:115-189 | a concrete extension whose second status write still changes it |
| FeStable.ReadyConverges | crates/frontend-extension-controller/src/controller.rs:90-135 | once the artifact is there one write reaches the fixed point |
| FeStable.MergeTwice | crates/frontend-extension-controller/src/status.rs:401-410 | writing a status twice is writing it once |
| FeMeaning.ConditionsSay | crates/frontend-extension-controller/src/status.rs:23-167 | for each decision, the phase and the four conditions that are written, word by word |
| FeMeaning.ReadySays | crates/frontend-extension-controller/src/status.rs:66-113 | a Ready status offers the ConfigMap and the metadata that were read, field by field |
| FeMeaning.NotReadySays | crates/frontend-extension-controller/src/status.rs:23-189 | a status without an artifact offers no download, shows the Job waited for, and a pending request before a publish that is kept |
| FeMeaning.UnpublishDeactivates | crates/frontend-extension-controller/src/unpublish.rs:304-331 | exactly a succeeded unpublish that did not happen before the publish makes it inactive, and changes nothing else of it |
| FeMeaning.LabelsSay | crates/frontend-extension-controller/src/status.rs:301-361 | the three labels, word by word, in terms of the stored status |
| FeTerminal.DoneStaysDone | crates/frontend-extension-controller/src/publish.rs:60-88 | once publish and unpublish are terminal for the current requests and artifact, no run of TTL deletions and of reconciles, each from any version of the extension since then, creates another Job |
| FeTerminal.WithdrawnStaysWithdrawn | crates/frontend-extension-controller/src/unpublish.rs:304-331 | an active flag that a later unpublish cleared stays cleared over any such run |
| FeTerminal.DoneStep | crates/frontend-extension-controller/src/publish.rs:281-298 | one reconcile, from any version so far, or one deletion creates nothing and leaves every version terminal |
| FeTerminal.ReconcileStartsExactly | crates/frontend-extension-controller/src/controller.rs:90-135 | a reconcile that finds the artifact starts no Job exactly when the version it works from shows both requests settled |
| FeTerminal.SafeVersion | crates/frontend-extension-controller/src/publish.rs:281-298 | a version is safe to reconcile from, whatever Jobs have been collected, exactly when it records its requests as finished |
| FeStaleVersion.OldVersionPublishesAgain | crates/frontend-extension-controller/src/publish.rs:60-88 | a concrete extension whose publish is terminal and whose earlier version, reconciled once more, starts the publish again |
| FeSolo.UndisturbedReconcile | crates/frontend-extension-controller/src/controller.rs:35-336 | the step-by-step reconcile, run alone, leaves what the undisturbed one leaves |
| FeSafety.DownloadsMatchSource | crates/frontend-forge-extension-api/src/handlers.rs:64-95 | in every run, downloaded bytes were packaged from a source with the hash the extension had when the download read it |
| FeSafety.PublicationsMatchRequest | crates/extension-publisher/src/main.rs:211-225 | in every run, published bytes have the Job's digest and come from the source the request named when the Job was created, even if the ConfigMap was replaced since |
| FeSafety.StoredStatusIsCoherent | crates/frontend-extension-controller/src/status.rs:23-167 | in every run the stored status is Ready exactly when it has an artifact and exactly when it offers a download, and the artifact is that of the observed source and token |
| FeSafety.SafeStep | crates/frontend-extension-controller/src/controller.rs:35-336 | every step of every program, and of users and garbage collection, keeps the invariant behind these |
| FeSafety.PackagerIsOk | crates/extension-packager/src/main.rs:152-306 | the packager stores only ConfigMaps whose bytes it packaged from the source they name, whether it creates or replaces |
| FeDelivery.PackagerDelivers | crates/extension-packager/src/main.rs:152-306 | run alone for the source its task names, the packager ends with a ConfigMap of the task's name that holds the packaged bytes and is a valid artifact for the task's source hash and key, whether it was there or not; nothing else changes |
| FeDelivery.PackagerRefuses | crates/extension-packager/src/main.rs:152-169 | on any other source it changes nothing |
| FeOrigin.StoredWasAskedFor | crates/extension-packager/src/main.rs:219-271 | in every run, every stored ConfigMap was asked for by a package Job, with that Job's name for it, source hash and artifact key |
| FeDelivery.PublisherDelivers | crates/extension-publisher/src/main.rs:193-296 | run alone, the publisher publishes what its task's ConfigMap holds exactly when it has the task's digest, and changes nothing else |
| FeDelivery.DownloadDelivers | crates/frontend-forge-extension-api/src/handlers.rs:64-95 | run alone, a download hands out exactly the bytes of the artifact offered for the current source, if they have its digest |
| FeDelivery.PackagedIsFound | crates/frontend-extension-controller/src/controller.rs:90-320 | a reconcile that creates an attempt, then the packager of that Job, then any further reconcile: it finds the artifact with the packaged bytes |
| FeDelivery.ReadyIsServed | crates/frontend-forge-extension-api/src/handlers.rs:275-317 | after a reconcile that found an artifact, a download hands out its bytes |
| FeDelivery.RequestIsPublished | crates/frontend-extension-controller/src/publish.rs:23-88 | a current request of the API that is not yet recorded is published: the Job that the reconcile starts carries its id and target, and its publisher publishes the artifact's bytes for it |
| FeProtocol.ReadyArtifact | crates/frontend-forge-extension-api/src/handlers.rs:275-317 | an artifact offered for download is the stored one and matches the current source |
| FeObserved.ObservedGenerationNeverDecreases | crates/frontend-extension-controller/src/status.rs:272-299 | with one serial controller the stored observed generation never decreases, though snapshots are stale and edits land between guard and patch |
| FeObserved.SerialStep | crates/frontend-extension-controller/src/status.rs:380-426 | each step keeps a status that passed the guard at least as new as the stored one |
| FeAttempts.AttemptsAreOrderly | crates/frontend-extension-controller/src/controller.rs:59-320 | with several reconciles interleaved, the attempts of one key are numbered within the limit, are distinct, and an unfinished one is the highest |
| FeAttempts.AttemptsStep | crates/frontend-extension-controller/src/controller.rs:309-319 | every step keeps this, unless a package Job is collected between listing and creating |
| FeAttempts.AttemptsProgress | crates/frontend-extension-controller/src/controller.rs:137-319 | without removals every creation or completion of an attempt uses up one of at most twice the limit |
| FeAttempts.ExhaustedDecides | crates/frontend-extension-controller/src/controller.rs:158-267 | and when none is left a reconcile writes Ready or Failed |
| FeProgress.CreationAdvances | crates/frontend-extension-controller/src/controller.rs:278-335 | a reconcile that creates an attempt uses one up exactly when the attempt's Job name is free; otherwise it changes no Job |
| FeProgress.ReconcileAdvances | crates/frontend-extension-controller/src/controller.rs:137-335 | with free names every reconcile writes Ready or Failed, or waits for an unfinished attempt of its group, or uses up an attempt |
| FeProgress.DecidesInTime | crates/frontend-extension-controller/src/controller.rs:35-336 | with free names, before the first reconcile that writes Ready or Failed, the reconciles that do not wait and the attempts that finish are together at most twice the limit |
| FeProgress.HeldNameIsNeverOvercome | crates/frontend-extension-controller/src/controller.rs:309-335 | when the name of the next attempt is held by another Job, every further reconcile decides to create that same attempt and changes no Job |
| FeProgress.LeftoverIsStuck | crates/common/src/lib.rs:253-276 | such a cluster: the only Job is the first attempt of an earlier extension of the same name, source and token |
| FeAttempts.CreatesNext | crates/frontend-extension-controller/src/controller.rs:137-281 | the attempt created is the one after a finished latest attempt, within the limit |
| FeApi.RequestIsHonouredExactly | crates/frontend-forge-extension-api/src/publish.rs:144-198 | the controller accepts a request the API wrote for exactly the generation, source and artifact it was made for, and with its id and target; otherwise it is stale |
| FeApi.RequestIsPending | crates/frontend-extension-controller/src/publish.rs:184-215 | a request without a digest is pending exactly while generation and source stay |
| FeApi.DeletionFollowsItsUnpublish | crates/frontend-extension-controller/src/unpublish.rs:333-350 | deletion through the API happens exactly when the unpublish request it wrote has succeeded |
| FeApi.SignedRoundTrip | crates/frontend-extension-controller/src/publish.rs:167-173 | a printed generation parses back exactly for the 64-bit integers |
| FeApi.TriggerPublish | crates/frontend-forge-extension-api/src/handlers.rs:169-213 | a publish is accepted exactly when the artifact is ready or still to come, the expected digest matches and the target resolves; it is then answered without a write exactly when that request is already recorded |
| FeApi.DeleteExtension | crates/frontend-forge-extension-api/src/handlers.rs:127-167 | the extension is deleted at once exactly unless an unpublish is asked for and it is published; the handler fails exactly when it then has no valid target, and otherwise writes the unpublish request that deletes it |
| FeApi.PatchPublishRequest | crates/frontend-forge-extension-api/src/publish.rs:144-198 | the object written carries the request and is otherwise the same, in its other annotations too |
| FeApi.StartedIsTheRequest | crates/frontend-extension-controller/src/publish.rs:307-446 | the Job started for a request the API wrote has that request's id and target, the artifact's digest and the ConfigMap that was read |
| FeApi.StartedIsTheUnpublish | crates/frontend-extension-controller/src/unpublish.rs:152-270 | and the Job started for an unpublish request its id, extension name and target |
| FeApi.TriggeredIsAccepted | crates/frontend-forge-extension-api/src/publish.rs:3-41 | what the handler writes is accepted by the controller, for the artifact offered or, without one, for any of the source |
| FeApi.ResolvedMeans | crates/frontend-forge-extension-api/src/publish.rs:3-41 | a publish request names the extension's generation and source, the artifact offered and the id given or else generated |
| FeApi.ResolvedUnpublishMeans | crates/frontend-forge-extension-api/src/publish.rs:43-74 | an unpublish request names the package, its target and the id given or else generated |
| FeApi.ResolvedTarget | crates/frontend-forge-extension-api/src/publish.rs:76-117 | the target of either is the annotated one, or else the policy's, and resolves exactly when it is complete |
| FeApi.WaitingMeans | crates/frontend-forge-extension-api/src/handlers.rs:319-336 | a publish can wait for an artifact exactly while none has been tried, packaging is under way, or Ready is for an older source |
| Migrator.Apis.MigrateAll | crates/frontend-forge-controller/src/bin/fi_to_fe_migrator/migration.rs:3-39 | undisturbed, the loop reports exactly the integrations that remain; the others have been migrated, and extensions of other origin are untouched |
| Migrator.Apis.MigrateOne | crates/frontend-forge-controller/src/bin/fi_to_fe_migrator/migration.rs:41-63 | one migration fails exactly when the name is taken by something else, and then changes nothing |
| Migrator.Apis.UpsertManagedFe | crates/frontend-forge-controller/src/bin/fi_to_fe_migrator/migration.rs:64-146 | the upsert creates or patches exactly the extension of this integration |
| Migrator.Apis.PatchPublishIntent | crates/frontend-forge-controller/src/bin/fi_to_fe_migrator/publish.rs:3-55 | the write succeeds exactly when the extension is still there; it then carries an intent for its stored source and generation exactly when these are the ones the upsert returned, and nothing else changes |
| Migrator.UpsertedIsSettled | crates/frontend-forge-controller/src/bin/fi_to_fe_migrator/migration.rs:89-106 | upserting again changes neither spec nor generation nor an intent already written |
| MigratorRuns.NoIntegrationIsLost | crates/frontend-forge-controller/src/bin/fi_to_fe_migrator/migration.rs:41-190 | in every state of every run, with migrators stopped and restarted at any step, each original integration is there, or an extension made from it is stored, with a publish intent for its current source and generation if it was enabled |
| MigratorRuns.OthersAreUntouched | crates/frontend-forge-controller/src/bin/fi_to_fe_migrator/migration.rs:111-146 | no step of a migrator changes an extension that was made from another source |
| MigratorRuns.StepKeeps | crates/frontend-forge-controller/src/bin/fi_to_fe_migrator/migration.rs:41-190 | every step of anybody keeps the invariant behind these |
| MigratorAlone.MigratesAlone | crates/frontend-forge-controller/src/bin/fi_to_fe_migrator/migration.rs:41-190 | run alone on a stored integration, the migrator reports a taken name and changes nothing; otherwise it leaves exactly the merged translation, with the intent unless switched off, deletes the integration or, with finalizers, marks it and waits, and changes nothing else |
| FiRuntime.BundleIsCoherent | crates/frontend-forge-runner/src/main.rs:163-243 | in every run the bundle's manifest is what a version of the integration renders to whose build hash is the one in the bundle's label |
| FiRuntime.SucceededIsWitnessed | crates/frontend-forge-controller/src/fi/controller.rs:159-208 | a stored Succeeded status goes back to a bundle the controller read that carries its hash, up to the length of a label |
| FiRuntime.RunnerKeeps | crates/frontend-forge-runner/src/main.rs:291-478 | every step of a runner keeps this, although the stale check may read a newer spec than the one it rendered |
| FiRuntime.ReconcileKeeps | crates/frontend-forge-controller/src/fi/controller.rs:31-211 | and so does every step of a reconcile |
| FiOutcome.ChildrenDecide | crates/frontend-forge-controller/src/fi/controller.rs:126-211 | an undisturbed reconcile with no build due ends in Building for a build Job in progress, Failed for a failed one, Succeeded with the bundle's manifest hash and the bundle switched on where the bundle matches, Building for a succeeded Job without one, and changes nothing without either |
| FiOutcome.BuildDueEnds | crates/frontend-forge-controller/src/fi/build.rs:7-28 | a build is due exactly when the spec has changed or what was built is gone; the reconcile then ends in Building |
| FiOutcome.DisabledEnds | crates/frontend-forge-controller/src/fi/status.rs:3-24 | a disabled integration ends in Pending with its hashes kept, and its bundle is switched off |
| FiOutcome.RunnerStores | crates/frontend-forge-runner/src/main.rs:163-455 | a runner for the observed hash stores the rendering of that spec, with the labels of the hash and of the enabled flag |
| FiOutcome.RunnerWaits | crates/frontend-forge-runner/src/main.rs:291-324 | with the build done a runner waits until a hash is observed, stops if it is another one, and reports Failed if none comes in time |
| FiOutcome.RunnerRefuses | crates/frontend-forge-runner/src/main.rs:163-183 | a runner for another hash changes nothing |
| FiOutcome.RunnerReportsFailure | crates/frontend-forge-runner/src/main.rs:537-591 | a runner that cannot render or build stores Failed for its hash |
| FiOutcome.BuildSucceeds | crates/frontend-forge-controller/src/fi/controller.rs:31-211 | from a new spec that renders: a reconcile, its runner and another reconcile end in Succeeded with the bundle of that rendering |

## Left out

- HTTP, TLS, the Kubernetes client, tracing and environment parsing: plumbing; only the atomic object operations are kept.
- The build service, `ksbuilder`, tar and gzip, SHA-256: parameters; nothing is known about their results.
- Text of errors and conditions' messages built from parts: error values carry their kind and keys, and the name of the resource that every manifest error repeats is dropped.
- Which of several errors is reported when a spec has more than one: each error reported is shown to hold, not to be the first.
- Columns and page state of CRD tables: page content is carried through unread; locales are carried as one value.
- Fields of an FE spec outside package name, source and publish policy, and everything that is outside the source hash: `Source` stands for what the hash covers.
- Helm values, README text, CRD schemas and the YAML text of role templates: only names, dependencies, categories and guards are modelled.
- Sorting is a function (`Text.SortedKeys`, `ArtifactGc.SortByAge`) rather than the library's in-place sort; ties are covered by the orders being total.
- Garbage collection of artifacts is a method of its own (`ArtifactGc.GcArtifactConfigMaps`); in the protocol any ConfigMap may vanish at any time, and `ReconcileSpec` does not include it.
- Finalizers and deletion timestamps of an FE: deletion removes the object, at any step.
- Watch delays, retry windows and requeue times: any program may start at any time from any version there ever was.
- FeObserved.ObservedGenerationNeverDecreases: assumes one reconcile at a time and no re-creation of the extension under its name; with two in flight a guard may pass before the other's write.
- FeAttempts.AttemptsAreOrderly: assumes that no package Job is removed while a reconcile is between listing and creating, since a removed latest attempt would be created again.
- FeReconcile.ApiServer.Reconcile: leaves out the collection of old artifacts that ends the Ready paths; it is the method `ArtifactGc.GcArtifactConfigMaps`.
- FeProgress.DecidesInTime: bounds reconciles that run one at a time; nothing says that Jobs finish or that reconciles are started.
- FeTerminal.DoneStaysDone: the versions a reconcile may start from are those since the extension was done; `FeStaleVersion` shows why not earlier ones.
- FeTerminal.WithdrawnStaysWithdrawn: assumes that a live unpublish Job has succeeded and carries its completion time, as Kubernetes sets it.
- MigratorRuns.NoIntegrationIsLost: assumes that nobody else edits the spec or annotations of a migrated extension or deletes it during the migration.
- Migrator.Apis.MigrateOne: deletion of the integration is immediate there; waiting for it, and timing out, is in `MigratorRuns`.
- FiRuntime.BundleIsCoherent: the bundle's ConfigMap is not modelled; two concurrent runners may leave one runner's ConfigMap and the other's bundle. Build Jobs appear only as what a listing shows, and a runner may be started for any hash.
- The phases of unpublish share the type of the phases of publish, and timestamps are integers.
- `job_name`, `secret_name` and the base-36 nonce: no property spans them.
