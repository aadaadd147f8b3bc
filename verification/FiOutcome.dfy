/**
 What a reconcile of an integration and a build runner do when nobody else moves,
 and that together they bring an integration to Succeeded.
 */
module FiOutcome {
  import opened Prelude
  import opened Names
  import opened CustomResources
  import opened Render
  import opened FiRuntime

  /** Up to `fuel` steps of one program, with one input for all of them. */
  function Alone(env: Env, s: State, proc: Proc, input: Input, fuel: nat): State
    decreases fuel
  {
    if fuel == 0 then s
    else
      var o := RunProc(env, s, proc, input);
      if o.next.None? then o.state else Alone(env, o.state, o.next.value, input, fuel - 1)
  }

  lemma AloneStep(env: Env, s: State, proc: Proc, input: Input, fuel: nat)
    requires fuel > 0
    ensures var o := RunProc(env, s, proc, input);
      Alone(env, s, proc, input, fuel) == if o.next.None? then o.state else Alone(env, o.state, o.next.value, input, fuel - 1)
  {
    hide RunProc;
  }

  // ----- What the stored objects say -----

  /** The hash of the spec, whatever its enabled flag says. */
  ghost function Hash(env: Env, fi: StoredFi): string {
    env.specHash(FiSpec(fi.fi.spec.displayName, fi.fi.spec.locales, None, fi.fi.spec.menus, fi.fi.spec.pages, fi.fi.spec.engineVersion))
  }

  /** The stored status was written for this hash; older ones recorded it as the manifest hash. */
  ghost predicate HasObserved(fi: StoredFi, hash: string) {
    && fi.status.Some?
    && (fi.status.value.observedSpecHash == Some(hash)
        || (fi.status.value.observedSpecHash.None? && fi.status.value.observedManifestHash == Some(hash)))
  }

  /** There is a bundle whose label is that of the hash. */
  ghost predicate HasBundle(s: State, hash: string) {
    s.bundle.Some? && s.bundle.value.specHashLabel == HashLabelValue(hash)
  }

  ghost predicate IsOff(fi: StoredFi) {
    fi.fi.spec.enabled == Some(false)
  }

  /** A new build is due: the spec has changed, or what was built has gone. */
  ghost predicate BuildIsDue(env: Env, s: State, fi: StoredFi) {
    || !HasObserved(fi, Hash(env, fi))
    || (fi.status.value.phase in {Pending, Succeeded} && !HasBundle(s, Hash(env, fi)))
  }

  ghost function SpecHashOf(fi: StoredFi): Option<string> {
    if fi.status.Some? then fi.status.value.observedSpecHash else None
  }

  ghost function BuiltHashOf(fi: StoredFi): Option<string> {
    if fi.status.Some? then fi.status.value.observedManifestHash else None
  }

  /**
   After the run the integration has this phase, written for its hash and generation,
   and is otherwise the same: switched off it keeps the hash it had, and the hash of
   what was built stays until something else is.
   */
  ghost predicate EndsIn(env: Env, fi: StoredFi, r: State, phase: FiPhase) {
    && r.fi.Some? && r.fi.value == fi.(status := r.fi.value.status)
    && r.fi.value.status.Some? && var st := r.fi.value.status.value;
    && st.phase == phase && st.observedGeneration == Some(fi.generation)
    && (phase != Pending ==> st.observedSpecHash == Some(Hash(env, fi)))
    && (phase == Pending ==> st.observedSpecHash == SpecHashOf(fi))
    && (phase != Succeeded ==> st.observedManifestHash == BuiltHashOf(fi))
  }

  lemma ConceptsAgree(env: Env, s: State, fi: StoredFi)
    ensures BuildHash(env, fi.fi) == Hash(env, fi) && (Enabled(fi.fi) <==> !IsOff(fi))
    ensures ObservedHash(fi.status) == Some(Hash(env, fi)) <==> HasObserved(fi, Hash(env, fi))
    ensures NeedsNewBuild(env, fi, s.bundle) <==> BuildIsDue(env, s, fi)
    ensures s.bundle.Some? && Matches(s.bundle.value, BuildHash(env, fi.fi)) <==> HasBundle(s, Hash(env, fi))
  {
    hide HashLabelValue;
    assert fi.fi.spec.(enabled := None) == FiSpec(fi.fi.spec.displayName, fi.fi.spec.locales, None, fi.fi.spec.menus, fi.fi.spec.pages, fi.fi.spec.engineVersion);
  }

  // ----- A reconcile of the stored object -----

  /** Writing a status with a phase, a generation and a hash leaves these stored, also where the write is skipped. */
  lemma WritingEnds(env: Env, s: State, fi: StoredFi, status: FiStatus, input: Input, fuel: nat)
    requires fuel >= 1 && s.fi == Some(fi) && status.observedGeneration == Some(fi.generation)
    requires status.observedSpecHash == (if status.phase == Pending then SpecHashOf(fi) else Some(Hash(env, fi)))
    requires status.phase != Succeeded ==> status.observedManifestHash == BuiltHashOf(fi)
    ensures var r := Alone(env, s, Writing(fi, status), input, fuel);
      && EndsIn(env, fi, r, status.phase) && r.bundle == s.bundle
      && (status.observedManifestHash.Some? ==> r.fi.value.status.value.observedManifestHash == status.observedManifestHash)
  {
    hide Hash;
    AloneStep(env, s, Writing(fi, status), input, fuel);
  }

  /** The integration is switched off: it is Pending, and its bundle is off too. */
  lemma DisabledEnds(env: Env, s: State, fi: StoredFi, input: Input, fuel: nat)
    requires fuel >= 3 && s.fi == Some(fi) && !fi.deleting && IsOff(fi)
    ensures var r := Alone(env, s, Starting(fi), input, fuel);
      && EndsIn(env, fi, r, Pending)
      && r.bundle == (if s.bundle.Some? then Some(s.bundle.value.(enabledLabel := false)) else None)
  {
    hide Alone, EndsIn;
    ConceptsAgree(env, s, fi);
    AloneStep(env, s, Starting(fi), input, fuel);
    if s.bundle.Some? {
      AloneStep(env, s, Disabling(fi), input, fuel - 1);
      WritingEnds(env, WithEnabledLabel(s, false), fi, DisabledStatus(fi), input, fuel - 2);
    } else {
      WritingEnds(env, s, fi, DisabledStatus(fi), input, fuel - 1);
    }
  }

  /** A build is due: the integration is Building. */
  lemma BuildDueEnds(env: Env, s: State, fi: StoredFi, input: Input, fuel: nat)
    requires fuel >= 2 && s.fi == Some(fi) && !fi.deleting && !IsOff(fi) && BuildIsDue(env, s, fi)
    ensures var r := Alone(env, s, Starting(fi), input, fuel); EndsIn(env, fi, r, Building) && r.bundle == s.bundle
  {
    hide Alone, EndsIn, BuildIsDue, NeedsNewBuild, Hash, BuildHash;
    ConceptsAgree(env, s, fi);
    AloneStep(env, s, Starting(fi), input, fuel);
    WritingEnds(env, s, fi, BuildStatus(fi, BuildHash(env, fi.fi), Building), input, fuel - 1);
  }

  /** The phase that a listed build Job, or its absence, leads to; none when there is nothing to say. */
  ghost function PhaseFor(env: Env, s: State, fi: StoredFi, job: JobSeen): Option<FiPhase> {
    match job
    case JobInProgress => Some(Building)
    case JobFailed => Some(Failed)
    case JobSucceeded => Some(if HasBundle(s, Hash(env, fi)) then Succeeded else Building)
    case NoJob => if HasBundle(s, Hash(env, fi)) then Some(Succeeded) else None
  }

  /** No build is due: the phase follows the build Job, and Succeeded carries the bundle's manifest hash and switches the bundle on. */
  lemma ChildrenDecide(env: Env, s: State, fi: StoredFi, input: Input, fuel: nat)
    requires fuel >= 5 && s.fi == Some(fi) && !fi.deleting && !IsOff(fi) && !BuildIsDue(env, s, fi)
    ensures var r, phase := Alone(env, s, Starting(fi), input, fuel), PhaseFor(env, s, fi, input.job);
      && (phase.None? ==> r == s)
      && (phase.Some? ==> EndsIn(env, fi, r, phase.value))
      && (phase == Some(Succeeded) ==>
          && r.bundle == Some(s.bundle.value.(enabledLabel := true))
          && r.fi.value.status.value.observedManifestHash == Some(s.bundle.value.manifestHash))
      && (phase != Some(Succeeded) ==> r.bundle == s.bundle)
  {
    hide Alone, EndsIn, BuildIsDue, NeedsNewBuild, Hash, BuildHash, HasBundle, Matches;
    ConceptsAgree(env, s, fi);
    AloneStep(env, s, Starting(fi), input, fuel);
    AloneStep(env, s, Checking(fi), input, fuel - 1);
    match input.job
    case JobInProgress => RefetchingEnds(env, s, fi, Building, input, fuel - 2);
    case JobFailed => RefetchingEnds(env, s, fi, Failed, input, fuel - 2);
    case NoJob => ReadingEnds(env, s, fi, false, input, fuel - 2);
    case JobSucceeded => ReadingEnds(env, s, fi, true, input, fuel - 2);
  }

  lemma RefetchingEnds(env: Env, s: State, fi: StoredFi, phase: FiPhase, input: Input, fuel: nat)
    requires fuel >= 2 && s.fi == Some(fi) && phase != Pending
    ensures var r := Alone(env, s, Refetching(BuildHash(env, fi.fi), phase), input, fuel); EndsIn(env, fi, r, phase) && r.bundle == s.bundle
  {
    hide Alone, EndsIn, Hash, BuildHash;
    ConceptsAgree(env, s, fi);
    AloneStep(env, s, Refetching(BuildHash(env, fi.fi), phase), input, fuel);
    WritingEnds(env, s, fi, BuildStatus(fi, BuildHash(env, fi.fi), phase), input, fuel - 1);
  }

  lemma ReadingEnds(env: Env, s: State, fi: StoredFi, hasJob: bool, input: Input, fuel: nat)
    requires fuel >= 3 && s.fi == Some(fi)
    ensures var r := Alone(env, s, Reading(fi, hasJob), input, fuel);
      if HasBundle(s, Hash(env, fi)) then
        && EndsIn(env, fi, r, Succeeded) && r.bundle == Some(s.bundle.value.(enabledLabel := true))
        && r.fi.value.status.value.observedManifestHash == Some(s.bundle.value.manifestHash)
      else if hasJob then EndsIn(env, fi, r, Building) && r.bundle == s.bundle
      else r == s
  {
    hide Alone, EndsIn, Hash, BuildHash, Matches;
    ConceptsAgree(env, s, fi);
    AloneStep(env, s, Reading(fi, hasJob), input, fuel);
    if HasBundle(s, Hash(env, fi)) {
      var seen := s.(seen := s.seen + {s.bundle.value});
      AloneStep(env, seen, Enabling(fi, s.bundle.value), input, fuel - 1);
      WritingEnds(env, WithEnabledLabel(seen, true), fi, SucceededStatus(fi, BuildHash(env, fi.fi), s.bundle.value), input, fuel - 2);
    } else if hasJob {
      WritingEnds(env, s, fi, BuildStatus(fi, BuildHash(env, fi.fi), Building), input, fuel - 1);
    }
  }

  // ----- A runner -----

  /**
   A runner for the hash of an integration that renders and has observed the hash
   stores the bundle of that rendering, with the labels of the hash and the flag.
   */
  lemma RunnerStores(env: Env, s: State, fi: StoredFi, input: Input, fuel: nat)
    requires fuel >= 3 && s.fi == Some(fi) && FiRenders(fi.fi) && HasObserved(fi, Hash(env, fi)) && !input.givesUp
    ensures var r := Alone(env, s, Fetching(Hash(env, fi)), input, fuel); var content := env.text(ManifestOf(InputOfFi(fi.fi)));
      && r.fi == s.fi
      && r.bundle == Some(Bundle(HashLabelValue(Hash(env, fi)), !IsOff(fi), content, env.textHash(content), fi.fi.spec, fi.generation))
  {
    hide Alone, FiRenders, Hash, BuildHash, HasObserved, HashLabelValue, ObservedHash, RunProc;
    ConceptsAgree(env, s, fi);
    var hash, content := Hash(env, fi), Rendering(env, fi.fi).value;
    AloneStep(env, s, Fetching(hash), input, fuel);
    AloneStep(env, s, Built(hash, content), input, fuel - 1);
    AloneStep(env, s, Fresh(hash, content, fi), input, fuel - 2);
    RunnerSteps(env, s, fi, hash, content, input);
  }

  lemma RunnerSteps(env: Env, s: State, fi: StoredFi, hash: string, content: string, input: Input)
    requires s.fi == Some(fi) && BuildHash(env, fi.fi) == hash && Rendering(env, fi.fi) == Some(content) && ObservedHash(fi.status) == Some(hash)
    requires !input.givesUp
    ensures RunProc(env, s, Fetching(hash), input) == Outcome(s, Some(Built(hash, content)))
    ensures RunProc(env, s, Built(hash, content), input) == Outcome(s, Some(Fresh(hash, content, fi)))
    ensures RunProc(env, s, Fresh(hash, content, fi), input)
            == Outcome(WithBundle(s, Bundle(HashLabelValue(hash), Enabled(fi.fi), content, env.textHash(content), fi.fi.spec, fi.generation)), None)
  {
    hide BuildHash, Rendering, ObservedHash, HashLabelValue;
  }

  /** A runner for any other hash changes nothing. */
  lemma RunnerRefuses(env: Env, s: State, hash: string, input: Input, fuel: nat)
    requires s.fi.None? || hash != Hash(env, s.fi.value)
    ensures Alone(env, s, Fetching(hash), input, fuel) == s
  {
    hide Hash, BuildHash;
    if s.fi.Some? { ConceptsAgree(env, s, s.fi.value); }
    if fuel > 0 { AloneStep(env, s, Fetching(hash), input, fuel); }
  }

  /**
   With the build done, the runner waits for the hash to be observed: any other one
   makes it stop, and if none comes in time it reports the failure.
   */
  lemma {:induction false} RunnerWaits(env: Env, s: State, fi: StoredFi, content: string, input: Input, fuel: nat)
    requires s.fi == Some(fi)
    requires !HasObserved(fi, Hash(env, fi))
    ensures var r := Alone(env, s, Built(Hash(env, fi), content), input, fuel);
      if SpecHashOf(fi).None? && BuiltHashOf(fi).None? && input.givesUp && fuel >= 2
      then EndsIn(env, fi, r, Failed) && r.bundle == s.bundle
      else r == s
  {
    hide Hash, BuildHash;
    ConceptsAgree(env, s, fi);
    if fuel > 0 {
      var built := Built(Hash(env, fi), content);
      AloneStep(env, s, built, input, fuel);
      if SpecHashOf(fi).None? && BuiltHashOf(fi).None? {
        if input.givesUp {
          if fuel > 1 { AloneStep(env, s, FailedRun(Hash(env, fi), fi), input, fuel - 1); }
        } else {
          RunnerWaits(env, s, fi, content, input, fuel - 1);
        }
      }
    }
  }

  /** A runner that cannot render or build reports Failed for its hash. */
  lemma RunnerReportsFailure(env: Env, s: State, fi: StoredFi, input: Input, fuel: nat)
    requires fuel >= 2 && s.fi == Some(fi) && (!FiRenders(fi.fi) || input.givesUp)
    ensures var r := Alone(env, s, Fetching(Hash(env, fi)), input, fuel); EndsIn(env, fi, r, Failed) && r.bundle == s.bundle
  {
    hide Alone, FiRenders, Hash, BuildHash;
    ConceptsAgree(env, s, fi);
    var hash := Hash(env, fi);
    AloneStep(env, s, Fetching(hash), input, fuel);
    AloneStep(env, s, FailedRun(hash, fi), input, fuel - 1);
  }

  // ----- From a new spec to Succeeded -----

  /**
   An integration that renders and is due for a build: after a reconcile, the
   runner of its hash and another reconcile it is Succeeded, and the bundle holds
   its rendering and is on.
   */
  lemma BuildSucceeds(env: Env, s: State, fi: StoredFi, first: Input, build: Input, second: Input)
    requires s.fi == Some(fi) && !fi.deleting && !IsOff(fi) && FiRenders(fi.fi) && BuildIsDue(env, s, fi)
    requires !build.givesUp && second.job in {NoJob, JobSucceeded}
    ensures var a := Alone(env, s, Starting(fi), first, 2);
      && a.fi.Some?
      && var b := Alone(env, a, Fetching(Hash(env, fi)), build, 3); var r := Alone(env, b, Starting(a.fi.value), second, 5);
      var content := env.text(ManifestOf(InputOfFi(fi.fi)));
      && EndsIn(env, fi, r, Succeeded) && r.fi.value.status.value.observedManifestHash == Some(env.textHash(content))
      && r.bundle.Some? && r.bundle.value.manifestContent == content && r.bundle.value.enabledLabel && r.bundle.value.specHashLabel == HashLabelValue(Hash(env, fi))
  {
    hide Alone, FiRenders, HashLabelValue;
    BuildDueEnds(env, s, fi, first, 2);
    var a := Alone(env, s, Starting(fi), first, 2);
    var building := a.fi.value;
    assert Hash(env, building) == Hash(env, fi);
    hide Hash;
    RunnerStores(env, a, building, build, 3);
    var b := Alone(env, a, Fetching(Hash(env, fi)), build, 3);
    ChildrenDecide(env, b, building, second, 5);
  }
}
