/**
 The FrontendIntegration runtime: reconciles, build runners and spec edits
 interleaved (crates/frontend-forge-controller/src/fi/controller.rs, build.rs,
 status.rs; crates/frontend-forge-runner/src/main.rs). A runner renders what it
 reads first and publishes much later; a reconcile starts from a cached object.
 */
module FiRuntime {
  import opened Prelude
  import opened Names
  import opened CustomResources
  import opened Render

  /** Not interpreted here: the hash of a spec without its enabled flag, canonical text and hash of a manifest. */
  datatype Env = Env(specHash: FiSpec -> string, text: Manifest -> string, textHash: string -> string)

  type Fi = FrontendIntegration

  datatype FiPhase = Pending | Building | Succeeded | Failed

  /** The parts of a stored status that decisions depend on. */
  datatype FiStatus = FiStatus(phase: FiPhase, observedSpecHash: Option<string>, observedManifestHash: Option<string>, observedGeneration: Option<int>)

  datatype StoredFi = StoredFi(fi: Fi, generation: int, deleting: bool, status: Option<FiStatus>)

  /** The labels and annotations of a stored JSBundle. */
  datatype Bundle = Bundle(
    specHashLabel: string, enabledLabel: bool, manifestContent: string, manifestHash: string, sourceSpec: FiSpec, sourceGeneration: int)

  function BuildHash(env: Env, fi: Fi): string {
    env.specHash(fi.spec.(enabled := None))
  }

  function Rendering(env: Env, fi: Fi): Option<string> {
    if FiRenders(fi) then Some(env.text(ManifestOf(InputOfFi(fi)))) else None
  }

  function Enabled(fi: Fi): bool {
    fi.spec.enabled.UnwrapOr(true)
  }

  predicate Matches(bundle: Bundle, specHash: string) {
    bundle.specHashLabel == HashLabelValue(specHash)
  }

  function ObservedHash(status: Option<FiStatus>): Option<string> {
    if status.None? then None
    else if status.value.observedSpecHash.Some? then status.value.observedSpecHash
    else status.value.observedManifestHash
  }

  predicate NeedsNewBuild(env: Env, fi: StoredFi, bundle: Option<Bundle>) {
    var hash, observed := BuildHash(env, fi.fi), ObservedHash(fi.status);
    || observed != Some(hash)
    || fi.status.None?
    || (observed == Some(hash) && !fi.status.value.phase.Building? && !fi.status.value.phase.Failed? && !(bundle.Some? && Matches(bundle.value, hash)))
  }

  // ----- Programs -----

  datatype Proc =
    // a build runner for one spec hash
    | Fetching(specHash: string)
    | Built(specHash: string, content: string)
    | Fresh(specHash: string, content: string, observed: StoredFi)
    | FailedRun(specHash: string, fetched: StoredFi)
    // a reconcile of the cached object
    | Starting(cached: StoredFi)
    | Disabling(cached: StoredFi)
    | Checking(cached: StoredFi)
    | Refetching(specHash: string, phase: FiPhase)
    | Reading(cached: StoredFi, hasJob: bool)
    | Enabling(cached: StoredFi, bundle: Bundle)
    | Writing(cached: StoredFi, status: FiStatus)

  /** The cluster; `past` and `bundles` record every version there was of the integration and of the bundle, `seen` what reconciles read. */
  datatype State = State(
    fi: Option<StoredFi>, bundle: Option<Bundle>, procs: map<nat, Proc>,
    past: set<StoredFi>, bundles: set<Bundle>, seen: set<Bundle>)

  datatype JobSeen = NoJob | JobInProgress | JobFailed | JobSucceeded

  /**
   Choices from outside: what a listing of build Jobs shows, whether the build
   service or the stale check gives up, and whether the status fields that are not
   modelled are already what a write would make them.
   */
  datatype Input = Input(job: JobSeen, givesUp: bool, restSame: bool)

  datatype Outcome = Outcome(state: State, next: Option<Proc>)

  function WithFi(s: State, fi: StoredFi): State {
    s.(fi := Some(fi), past := s.past + {fi})
  }

  function WithBundle(s: State, bundle: Bundle): State {
    s.(bundle := Some(bundle), bundles := s.bundles + {bundle})
  }

  function Or<T>(a: Option<T>, b: Option<T>): Option<T> {
    if a.Some? then a else b
  }

  /** Merging a status patch into the stored status. */
  function MergeFiStatus(stored: Option<FiStatus>, d: FiStatus): FiStatus {
    if stored.None? then d
    else
      FiStatus(
        d.phase, Or(d.observedSpecHash, stored.value.observedSpecHash),
        Or(d.observedManifestHash, stored.value.observedManifestHash), Or(d.observedGeneration, stored.value.observedGeneration))
  }

  function ManifestHashOf(fi: StoredFi): Option<string> {
    if fi.status.Some? then fi.status.value.observedManifestHash else None
  }

  function DisabledStatus(fi: StoredFi): FiStatus {
    FiStatus(Pending, if fi.status.Some? then fi.status.value.observedSpecHash else None, ManifestHashOf(fi), Some(fi.generation))
  }

  function BuildStatus(fi: StoredFi, specHash: string, phase: FiPhase): FiStatus {
    FiStatus(phase, Some(specHash), ManifestHashOf(fi), Some(fi.generation))
  }

  function SucceededStatus(fi: StoredFi, specHash: string, bundle: Bundle): FiStatus {
    FiStatus(Succeeded, Some(specHash), Some(bundle.manifestHash), Some(fi.generation))
  }

  /** upsert_jsbundle: every label and annotation the runner owns is applied. */
  function UpsertedBundle(env: Env, specHash: string, content: string, observed: StoredFi): Bundle {
    Bundle(HashLabelValue(specHash), Enabled(observed.fi), content, env.textHash(content), observed.fi.spec, observed.generation)
  }

  function RunRunner(env: Env, s: State, proc: Proc, input: Input): Outcome
    requires proc.Fetching? || proc.Built? || proc.Fresh? || proc.FailedRun?
  {
    match proc
    case Fetching(hash) =>
      if s.fi.None? || BuildHash(env, s.fi.value.fi) != hash then Outcome(s, None)
      else if Rendering(env, s.fi.value.fi).None? || input.givesUp then Outcome(s, Some(FailedRun(hash, s.fi.value)))
      else Outcome(s, Some(Built(hash, Rendering(env, s.fi.value.fi).value)))
    case Built(hash, content) =>
      if s.fi.None? then Outcome(s, None)
      else
        var observed := ObservedHash(s.fi.value.status);
        if observed == Some(hash) then Outcome(s, Some(Fresh(hash, content, s.fi.value)))
        else if observed.Some? then Outcome(s, None)
        else if input.givesUp then Outcome(s, Some(FailedRun(hash, s.fi.value)))
        else Outcome(s, Some(proc))
    case Fresh(hash, content, observed) => Outcome(WithBundle(s, UpsertedBundle(env, hash, content, observed)), None)
    case FailedRun(hash, fetched) =>
      if s.fi.None? then Outcome(s, None)
      else
        var status := MergeFiStatus(s.fi.value.status, FiStatus(Failed, Some(hash), ManifestHashOf(fetched), Some(fetched.generation)));
        Outcome(WithFi(s, s.fi.value.(status := Some(status))), None)
  }

  function WithEnabledLabel(s: State, enabled: bool): State {
    if s.bundle.None? then s else WithBundle(s, s.bundle.value.(enabledLabel := enabled))
  }

  function RunReconcile(env: Env, s: State, proc: Proc, input: Input): Outcome
    requires !(proc.Fetching? || proc.Built? || proc.Fresh? || proc.FailedRun?)
  {
    match proc
    case Starting(fi) =>
      if fi.deleting then Outcome(s, None)
      else if !Enabled(fi.fi) then Outcome(s, Some(if s.bundle.Some? then Disabling(fi) else Writing(fi, DisabledStatus(fi))))
      else if NeedsNewBuild(env, fi, s.bundle) then Outcome(s, Some(Writing(fi, BuildStatus(fi, BuildHash(env, fi.fi), Building))))
      else Outcome(s, Some(Checking(fi)))
    case Disabling(fi) => Outcome(WithEnabledLabel(s, false), Some(Writing(fi, DisabledStatus(fi))))
    case Checking(fi) =>
      Outcome(s, Some(match input.job
        case NoJob => Reading(fi, false)
        case JobInProgress => Refetching(BuildHash(env, fi.fi), Building)
        case JobFailed => Refetching(BuildHash(env, fi.fi), Failed)
        case JobSucceeded => Reading(fi, true)))
    case Refetching(hash, phase) =>
      Outcome(s, if s.fi.None? then None else Some(Writing(s.fi.value, BuildStatus(s.fi.value, hash, phase))))
    case Reading(fi, hasJob) =>
      var hash := BuildHash(env, fi.fi);
      if s.bundle.Some? && Matches(s.bundle.value, hash) then
        Outcome(s.(seen := s.seen + {s.bundle.value}), Some(Enabling(fi, s.bundle.value)))
      else Outcome(s, if hasJob then Some(Writing(fi, BuildStatus(fi, hash, Building))) else None)
    case Enabling(fi, bundle) =>
      Outcome(WithEnabledLabel(s, true), Some(Writing(fi, SucceededStatus(fi, BuildHash(env, fi.fi), bundle))))
    case Writing(cached, status) =>
      if s.fi.None? || (input.restSame && cached.status == Some(status)) then Outcome(s, None)
      else Outcome(WithFi(s, s.fi.value.(status := Some(MergeFiStatus(s.fi.value.status, status)))), None)
  }

  function RunProc(env: Env, s: State, proc: Proc, input: Input): Outcome {
    if proc.Fetching? || proc.Built? || proc.Fresh? || proc.FailedRun? then RunRunner(env, s, proc, input) else RunReconcile(env, s, proc, input)
  }

  datatype Action =
    | CreateFi(fi: StoredFi)
    | EditFi(fi: StoredFi)
    | RemoveFi
    | RemoveBundle
    | Spawn(pid: nat, proc: Proc)
    | Run(pid: nat, input: Input)
    | Crash(pid: nat)

  ghost predicate Next(env: Env, s: State, s': State, action: Action) {
    match action
    case CreateFi(fi) => s.fi.None? && fi.status.None? && s' == WithFi(s, fi)
    case EditFi(fi) => s.fi.Some? && fi.status == s.fi.value.status && s' == WithFi(s, fi)
    case RemoveFi => s' == s.(fi := None)
    case RemoveBundle => s' == s.(bundle := None)
    case Spawn(pid, proc) => pid !in s.procs && (proc.Fetching? || (proc.Starting? && proc.cached in s.past)) && s' == s.(procs := s.procs[pid := proc])
    case Run(pid, input) =>
      pid in s.procs &&
      var o := RunProc(env, s, s.procs[pid], input);
      s' == o.state.(procs := if o.next.Some? then s.procs[pid := o.next.value] else s.procs - {pid})
    case Crash(pid) => s' == s.(procs := s.procs - {pid})
  }

  ghost predicate IsRun(env: Env, states: seq<State>, actions: seq<Action>) {
    && |states| == |actions| + 1
    && states[0] == State(None, None, map[], {}, {}, {})
    && forall i :: 0 <= i < |actions| ==> Next(env, states[i], states[i + 1], actions[i])
  }

  // ----- Coherence -----

  /** The content is what some version of the integration with this build hash renders to. */
  ghost predicate RendersFor(env: Env, past: set<StoredFi>, specHash: string, content: string) {
    exists v: StoredFi :: v in past && BuildHash(env, v.fi) == specHash && Rendering(env, v.fi) == Some(content)
  }

  /** The integration has said that it observed this hash, with this spec and generation. */
  ghost predicate WasObserved(past: set<StoredFi>, specHash: string, spec: FiSpec, generation: int) {
    exists v: StoredFi :: v in past && ObservedHash(v.status) == Some(specHash) && v.fi.spec == spec && v.generation == generation
  }

  /** A bundle's content is a rendering for the hash in its label, and its other annotations belong to that content. */
  ghost predicate Coherent(env: Env, past: set<StoredFi>, b: Bundle) {
    exists h: string ::
      && b.specHashLabel == HashLabelValue(h) && RendersFor(env, past, h, b.manifestContent)
      && b.manifestHash == env.textHash(b.manifestContent)
      && WasObserved(past, h, b.sourceSpec, b.sourceGeneration)
  }

  /** Some bundle that a reconcile read carries the label of this hash. */
  ghost predicate Witnessed(seen: set<Bundle>, specHash: string, manifestHash: string) {
    exists b :: b in seen && Matches(b, specHash) && b.manifestHash == manifestHash
  }

  ghost predicate StatusOk(seen: set<Bundle>, status: FiStatus) {
    status.phase.Succeeded? ==>
      status.observedSpecHash.Some? && status.observedManifestHash.Some? && Witnessed(seen, status.observedSpecHash.value, status.observedManifestHash.value)
  }

  ghost predicate ProcOk(env: Env, s: State, proc: Proc) {
    match proc
    case Built(hash, content) => RendersFor(env, s.past, hash, content)
    case Fresh(hash, content, observed) =>
      RendersFor(env, s.past, hash, content) && observed in s.past && ObservedHash(observed.status) == Some(hash)
    case Refetching(_, phase) => !phase.Succeeded?
    case Enabling(fi, bundle) => bundle in s.seen && Matches(bundle, BuildHash(env, fi.fi))
    case Writing(_, status) => StatusOk(s.seen, status)
    case _ => true
  }

  ghost predicate Sound(env: Env, s: State) {
    && (s.fi.Some? ==> s.fi.value in s.past && (s.fi.value.status.Some? ==> StatusOk(s.seen, s.fi.value.status.value)))
    && (s.bundle.Some? ==> s.bundle.value in s.bundles)
    && s.seen <= s.bundles
    && (forall b :: b in s.bundles ==> Coherent(env, s.past, b))
    && (forall pid :: pid in s.procs ==> ProcOk(env, s, s.procs[pid]))
  }

  // ----- What is known stays known -----

  ghost predicate Grows(s: State, s': State) {
    s.past <= s'.past && s.seen <= s'.seen
  }

  lemma RendersForMono(env: Env, p: set<StoredFi>, q: set<StoredFi>, specHash: string, content: string)
    requires p <= q && RendersFor(env, p, specHash, content)
    ensures RendersFor(env, q, specHash, content)
  {
    hide BuildHash, Rendering;
    var v: StoredFi :| v in p && BuildHash(env, v.fi) == specHash && Rendering(env, v.fi) == Some(content);
    assert v in q;
  }

  lemma CoherentMono(env: Env, p: set<StoredFi>, q: set<StoredFi>, b: Bundle)
    requires p <= q && Coherent(env, p, b)
    ensures Coherent(env, q, b)
  {
    hide RendersFor, HashLabelValue, ObservedHash;
    var h: string :|
      && b.specHashLabel == HashLabelValue(h) && RendersFor(env, p, h, b.manifestContent)
      && b.manifestHash == env.textHash(b.manifestContent) && WasObserved(p, h, b.sourceSpec, b.sourceGeneration);
    RendersForMono(env, p, q, h, b.manifestContent);
    var v: StoredFi :| v in p && ObservedHash(v.status) == Some(h) && v.fi.spec == b.sourceSpec && v.generation == b.sourceGeneration;
    assert v in q;
    assert WasObserved(q, h, b.sourceSpec, b.sourceGeneration);
  }

  lemma StatusMono(seen: set<Bundle>, seen': set<Bundle>, status: FiStatus)
    requires seen <= seen' && StatusOk(seen, status)
    ensures StatusOk(seen', status)
  {
    hide Matches;
    if status.phase.Succeeded? {
      var b :| b in seen && Matches(b, status.observedSpecHash.value) && b.manifestHash == status.observedManifestHash.value;
      assert b in seen';
    }
  }

  lemma ProcMono(env: Env, s: State, s': State, proc: Proc)
    requires Grows(s, s') && ProcOk(env, s, proc)
    ensures ProcOk(env, s', proc)
  {
    hide RendersFor, StatusOk, ObservedHash, Matches;
    match proc
    case Built(hash, content) => RendersForMono(env, s.past, s'.past, hash, content);
    case Fresh(hash, content, _) => RendersForMono(env, s.past, s'.past, hash, content);
    case Writing(_, status) => StatusMono(s.seen, s'.seen, status);
    case _ =>
  }

  /** Writing the integration, or reading a bundle, keeps the rest. */
  lemma GrowthKeeps(env: Env, s: State, s': State)
    requires Sound(env, s) && Grows(s, s') && s'.procs == s.procs && s'.bundle == s.bundle && s'.bundles == s.bundles && s'.seen <= s'.bundles
    requires s'.fi.Some? ==> s'.fi.value in s'.past && (s'.fi.value.status.Some? ==> StatusOk(s'.seen, s'.fi.value.status.value))
    ensures Sound(env, s')
  {
    hide ProcOk, Coherent, StatusOk;
    forall b | b in s.bundles ensures Coherent(env, s'.past, b) { CoherentMono(env, s.past, s'.past, b); }
    forall pid | pid in s.procs ensures ProcOk(env, s', s.procs[pid]) { ProcMono(env, s, s', s.procs[pid]); }
  }

  lemma BundleKeeps(env: Env, s: State, b: Bundle)
    requires Sound(env, s) && Coherent(env, s.past, b)
    ensures Sound(env, WithBundle(s, b))
  {
    hide ProcOk, Coherent, StatusOk;
    forall pid | pid in s.procs ensures ProcOk(env, WithBundle(s, b), s.procs[pid]) { ProcMono(env, s, WithBundle(s, b), s.procs[pid]); }
  }

  // ----- Steps -----

  /** Merging a sound status into a sound stored one: phase, hash and manifest hash of a Succeeded status come together. */
  lemma MergedStatusOk(seen: set<Bundle>, stored: Option<FiStatus>, d: FiStatus)
    requires StatusOk(seen, d)
    ensures StatusOk(seen, MergeFiStatus(stored, d))
  {
    hide Witnessed;
  }

  lemma WriteStatusKeeps(env: Env, s: State, d: FiStatus)
    requires Sound(env, s) && s.fi.Some? && StatusOk(s.seen, d)
    ensures Sound(env, WithFi(s, s.fi.value.(status := Some(MergeFiStatus(s.fi.value.status, d)))))
  {
    hide StatusOk, MergeFiStatus, ProcOk, Coherent;
    MergedStatusOk(s.seen, s.fi.value.status, d);
    GrowthKeeps(env, s, WithFi(s, s.fi.value.(status := Some(MergeFiStatus(s.fi.value.status, d)))));
  }

  lemma NotSucceededOk(seen: set<Bundle>, status: FiStatus)
    requires !status.phase.Succeeded?
    ensures StatusOk(seen, status)
  {
  }

  lemma LabelKeeps(env: Env, s: State, enabled: bool)
    requires Sound(env, s)
    ensures Sound(env, WithEnabledLabel(s, enabled))
  {
    hide ProcOk, StatusOk, RendersFor, WasObserved, HashLabelValue;
    if s.bundle.Some? {
      assert Coherent(env, s.past, s.bundle.value);
      assert Coherent(env, s.past, s.bundle.value.(enabledLabel := enabled));
      hide Coherent;
      BundleKeeps(env, s, s.bundle.value.(enabledLabel := enabled));
    }
  }

  lemma UpsertedIsCoherent(env: Env, s: State, hash: string, content: string, observed: StoredFi)
    requires ProcOk(env, s, Fresh(hash, content, observed))
    ensures Coherent(env, s.past, UpsertedBundle(env, hash, content, observed))
  {
    hide RendersFor, HashLabelValue, ObservedHash;
    assert WasObserved(s.past, hash, observed.fi.spec, observed.generation);
  }

  lemma RunnerKeeps(env: Env, s: State, proc: Proc, input: Input)
    requires proc.Fetching? || proc.Built? || proc.Fresh? || proc.FailedRun?
    requires Sound(env, s) && ProcOk(env, s, proc)
    ensures var o := RunRunner(env, s, proc, input);
      Sound(env, o.state) && o.state.procs == s.procs && (o.next.Some? ==> ProcOk(env, o.state, o.next.value))
  {
    hide Coherent, StatusOk, BuildHash, Rendering, ObservedHash, MergeFiStatus, UpsertedBundle;
    match proc
    case Fetching(hash) =>
      if s.fi.Some? && BuildHash(env, s.fi.value.fi) == hash && Rendering(env, s.fi.value.fi).Some? {
        assert RendersFor(env, s.past, hash, Rendering(env, s.fi.value.fi).value);
      }
    case Fresh(hash, content, observed) =>
      UpsertedIsCoherent(env, s, hash, content, observed);
      BundleKeeps(env, s, UpsertedBundle(env, hash, content, observed));
    case FailedRun(hash, fetched) =>
      if s.fi.Some? {
        var d := FiStatus(Failed, Some(hash), ManifestHashOf(fetched), Some(fetched.generation));
        NotSucceededOk(s.seen, d);
        WriteStatusKeeps(env, s, d);
      }
    case _ =>
  }

  lemma ReadingKeeps(env: Env, s: State, fi: StoredFi, hasJob: bool, input: Input)
    requires Sound(env, s)
    ensures var o := RunReconcile(env, s, Reading(fi, hasJob), input);
      Sound(env, o.state) && o.state.procs == s.procs && (o.next.Some? ==> ProcOk(env, o.state, o.next.value))
  {
    hide Coherent, StatusOk, BuildHash, Matches, ProcOk;
    var hash := BuildHash(env, fi.fi);
    if s.bundle.Some? && Matches(s.bundle.value, hash) {
      var s' := s.(seen := s.seen + {s.bundle.value});
      if s.fi.Some? && s.fi.value.status.Some? { StatusMono(s.seen, s'.seen, s.fi.value.status.value); }
      GrowthKeeps(env, s, s');
      EnablingOk(env, s', fi, s.bundle.value);
    } else {
      NotSucceededOk(s.seen, BuildStatus(fi, hash, Building));
      WritingOk(env, s, fi, BuildStatus(fi, hash, Building));
    }
  }

  lemma EnablingOk(env: Env, s: State, fi: StoredFi, bundle: Bundle)
    requires bundle in s.seen && Matches(bundle, BuildHash(env, fi.fi))
    ensures ProcOk(env, s, Enabling(fi, bundle))
    ensures StatusOk(s.seen, SucceededStatus(fi, BuildHash(env, fi.fi), bundle))
  {
    hide BuildHash, Matches;
  }

  lemma WritingOk(env: Env, s: State, fi: StoredFi, status: FiStatus)
    requires StatusOk(s.seen, status)
    ensures ProcOk(env, s, Writing(fi, status))
  {
    hide StatusOk;
  }

  lemma ReconcileKeeps(env: Env, s: State, proc: Proc, input: Input)
    requires !(proc.Fetching? || proc.Built? || proc.Fresh? || proc.FailedRun?)
    requires Sound(env, s) && ProcOk(env, s, proc)
    ensures var o := RunReconcile(env, s, proc, input);
      Sound(env, o.state) && o.state.procs == s.procs && (o.next.Some? ==> ProcOk(env, o.state, o.next.value))
  {
    hide Sound, StatusOk, BuildHash, Matches, NeedsNewBuild, MergeFiStatus, WithEnabledLabel;
    match proc
    case Starting(fi) =>
      NotSucceededOk(s.seen, DisabledStatus(fi));
      NotSucceededOk(s.seen, BuildStatus(fi, BuildHash(env, fi.fi), Building));
    case Disabling(fi) =>
      LabelKeeps(env, s, false);
      NotSucceededOk(WithEnabledLabel(s, false).seen, DisabledStatus(fi));
      LabelStep(s, false);
    case Refetching(hash, phase) =>
      if s.fi.Some? { NotSucceededOk(s.seen, BuildStatus(s.fi.value, hash, phase)); }
    case Reading(fi, hasJob) => ReadingKeeps(env, s, fi, hasJob, input);
    case Enabling(fi, bundle) =>
      LabelKeeps(env, s, true);
      LabelStep(s, true);
      EnablingOk(env, s, fi, bundle);
    case Writing(cached, status) =>
      if s.fi.Some? { WriteStatusKeeps(env, s, status); }
    case _ =>
  }

  lemma LabelStep(s: State, enabled: bool)
    ensures WithEnabledLabel(s, enabled).procs == s.procs && WithEnabledLabel(s, enabled).seen == s.seen
  {
  }

  lemma SoundStep(env: Env, s: State, s': State, action: Action)
    requires Sound(env, s) && Next(env, s, s', action)
    ensures Sound(env, s')
  {
    hide Coherent, StatusOk, ProcOk, RunRunner, RunReconcile;
    match action
    case CreateFi(fi) => GrowthKeeps(env, s, s');
    case EditFi(fi) => GrowthKeeps(env, s, s');
    case Spawn(pid, proc) => SpawnOk(env, s', proc); OthersKeep(env, s, s');
    case Run(pid, input) =>
      var o := RunProc(env, s, s.procs[pid], input);
      if s.procs[pid].Fetching? || s.procs[pid].Built? || s.procs[pid].Fresh? || s.procs[pid].FailedRun? { RunnerKeeps(env, s, s.procs[pid], input); }
      else { ReconcileKeeps(env, s, s.procs[pid], input); }
      if o.next.Some? { SameKnowledge(env, o.state, s', o.next.value); }
      OthersKeep(env, o.state, s');
    case _ => OthersKeep(env, s, s');
  }

  lemma SpawnOk(env: Env, s: State, proc: Proc)
    requires proc.Fetching? || proc.Starting?
    ensures ProcOk(env, s, proc)
  {
  }

  lemma SameKnowledge(env: Env, s: State, s': State, proc: Proc)
    requires s'.past == s.past && s'.seen == s.seen && ProcOk(env, s, proc)
    ensures ProcOk(env, s', proc)
  {
    ProcMono(env, s, s', proc);
  }

  lemma OthersKeep(env: Env, s: State, s': State)
    requires Sound(env, s) && s'.past == s.past && s'.seen == s.seen
    ensures forall pid :: pid in s.procs ==> ProcOk(env, s', s.procs[pid])
  {
    hide ProcOk, Coherent, StatusOk;
    forall pid | pid in s.procs ensures ProcOk(env, s', s.procs[pid]) { SameKnowledge(env, s, s', s.procs[pid]); }
  }

  lemma {:induction false} AlwaysSound(env: Env, states: seq<State>, actions: seq<Action>, i: nat)
    requires IsRun(env, states, actions) && i < |states|
    ensures Sound(env, states[i])
  {
    hide Next, Coherent, StatusOk, ProcOk;
    if i > 0 {
      AlwaysSound(env, states, actions, i - 1);
      SoundStep(env, states[i - 1], states[i], actions[i - 1]);
    }
  }

  // ----- Main results -----

  /**
   In every run, the stored bundle's manifest content is what a version of the
   integration renders to whose build hash is the one in the bundle's label.
   */
  lemma BundleIsCoherent(env: Env, states: seq<State>, actions: seq<Action>, i: nat)
    requires IsRun(env, states, actions) && i < |states| && states[i].bundle.Some?
    ensures var b := states[i].bundle.value;
      b.manifestHash == env.textHash(b.manifestContent) && exists v: StoredFi ::
        v in states[i].past && HashLabelValue(BuildHash(env, v.fi)) == b.specHashLabel && Rendering(env, v.fi) == Some(b.manifestContent)
  {
    hide IsRun, ProcOk, StatusOk, BuildHash, Rendering, HashLabelValue, WasObserved;
    AlwaysSound(env, states, actions, i);
    var b := states[i].bundle.value;
    assert Coherent(env, states[i].past, b);
  }

  /**
   In every run, a stored Succeeded status goes back to a bundle that a reconcile
   read: labelled with the status's hash (up to the length of a label), holding a
   rendering for that label, and with the status's manifest hash.
   */
  lemma SucceededIsWitnessed(env: Env, states: seq<State>, actions: seq<Action>, i: nat)
    requires IsRun(env, states, actions) && i < |states| && states[i].fi.Some? && states[i].fi.value.status.Some?
    requires states[i].fi.value.status.value.phase.Succeeded?
    ensures var st := states[i].fi.value.status.value;
      && st.observedSpecHash.Some? && st.observedManifestHash.Some?
      && exists b, v: StoredFi ::
           && b in states[i].seen && v in states[i].past
           && b.specHashLabel == HashLabelValue(st.observedSpecHash.value) == HashLabelValue(BuildHash(env, v.fi))
           && Rendering(env, v.fi) == Some(b.manifestContent)
           && st.observedManifestHash.value == b.manifestHash == env.textHash(b.manifestContent)
  {
    hide IsRun, ProcOk, BuildHash, Rendering, HashLabelValue, WasObserved;
    AlwaysSound(env, states, actions, i);
    var st := states[i].fi.value.status.value;
    var b :| b in states[i].seen && Matches(b, st.observedSpecHash.value) && b.manifestHash == st.observedManifestHash.value;
    assert Coherent(env, states[i].past, b);
    var h: string :|
      && b.specHashLabel == HashLabelValue(h) && RendersFor(env, states[i].past, h, b.manifestContent)
      && b.manifestHash == env.textHash(b.manifestContent) && WasObserved(states[i].past, h, b.sourceSpec, b.sourceGeneration);
    var v: StoredFi :| v in states[i].past && BuildHash(env, v.fi) == h && Rendering(env, v.fi) == Some(b.manifestContent);
  }
}
