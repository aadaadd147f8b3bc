/**
 With one serial controller the stored observed generation never goes back, even
 though reconciles start from cached objects of any age and users edit the spec
 between the guard's read and the patch.
 */
module FeObserved {
  import opened Prelude
  import opened FeTypes
  import opened FeStatusRules
  import opened FeReconcile
  import opened FeProtocol

  /** At most one reconcile is in flight. */
  ghost predicate Serial(s: State) {
    forall p, q :: p in s.procs && q in s.procs && IsReconcile(s.procs[p]) && IsReconcile(s.procs[q]) ==> p == q
  }

  /** One extension object over the whole run: once removed it is not created again. */
  predicate OneLife(s: State, action: Action) {
    action.CreateFe? ==> s.past == {}
  }

  ghost predicate SerialRun(w: World, states: seq<State>, actions: seq<Action>) {
    && IsRun(w, states, actions)
    && (forall i :: 0 <= i < |states| ==> Serial(states[i]))
    && (forall i :: 0 <= i < |actions| ==> OneLife(states[i], actions[i]))
  }

  function ObservedGeneration(fe: Fe): Option<int> {
    if fe.status.Some? then fe.status.value.observedGeneration else None
  }

  predicate AtMost(a: Option<int>, n: int) {
    a.Some? ==> a.value <= n
  }

  /** What the next writer relies on: a status that passed the guard is at least as new as the stored one. */
  predicate PatchIsNewer(fe: Fe, proc: Proc) {
    proc.Patching? ==>
      && proc.status.observedGeneration.Some?
      && AtMost(ObservedGeneration(fe), proc.status.observedGeneration.value)
      && proc.status.observedGeneration.value <= fe.generation
  }

  ghost predicate Newest(s: State) {
    && (s.fe.Some? ==> AtMost(ObservedGeneration(s.fe.value), s.fe.value.generation))
    && (forall pid :: pid in s.procs && s.fe.Some? ==> PatchIsNewer(s.fe.value, s.procs[pid]))
    && (forall pid :: pid in s.procs && IsReconcile(s.procs[pid]) ==> s.past != {})
  }

  /** While the extension is there, its stored observed generation only grows. */
  predicate NotBack(s: State, s': State) {
    s.fe.Some? && s'.fe.Some? && ObservedGeneration(s.fe.value).Some? ==>
      ObservedGeneration(s'.fe.value).Some? && ObservedGeneration(s.fe.value).value <= ObservedGeneration(s'.fe.value).value
  }

  /** The object and the programs are as before, and the program goes on to something that is not a patch. */
  predicate LeavesObject(s: State, proc: Proc, o: Outcome) {
    && o.state.fe == s.fe && o.state.procs == s.procs && o.state.past == s.past
    && (o.next.Some? ==> !o.next.value.Patching? && (IsReconcile(o.next.value) ==> IsReconcile(proc)))
  }

  lemma DecidingLeavesObject(w: World, s: State, proc: Proc, input: Input)
    requires proc.Starting? || proc.Listed? || proc.Rechecking? || proc.CreatingPackage? || proc.FetchingPackage?
    ensures LeavesObject(s, proc, RunDeciding(w, s, proc, input))
  {
    hide Decide, DecideAgain, FailedStatus, PackagingStatus, PackageTaskOf, ArtifactName, ConfigMapIn;
  }

  lemma SyncingLeavesObject(w: World, s: State, proc: Proc, input: Input)
    requires proc.Publishing? || proc.CreatingPublish? || proc.FetchingPublish? || proc.Unpublishing? || proc.CreatingUnpublish? || proc.FetchingUnpublish?
    ensures LeavesObject(s, proc, RunSyncing(w, s, proc, input))
  {
    hide ResolvePublish, ResolveUnpublish, ReadyStatus, ApplyPublishSync, ApplyUnpublishSync, PublishTaskOf, UnpublishTaskOf, ShouldDelete;
    hide PublishName, UnpublishName, PublishStatusOf, UnpublishStatusOf, RetainedPublish, PublishAlreadyFinished, UnpublishAlreadyFinished;
  }

  lemma PodsLeaveObject(w: World, s: State, proc: Proc, input: Input)
    requires !IsReconcile(proc)
    ensures LeavesObject(s, proc, RunProc(w, s, proc, input))
  {
    hide ReadyArtifact, SourceHash, BuiltConfigMap, RunDeciding, RunSyncing, RunWriting;
  }

  /** A step of a program that writes no status leaves the object, and starts no patch. */
  lemma OtherPrograms(w: World, s: State, proc: Proc, input: Input)
    requires !IsWriting(proc)
    ensures LeavesObject(s, proc, RunProc(w, s, proc, input))
  {
    hide RunDeciding, RunSyncing, LeavesObject;
    if !IsReconcile(proc) { PodsLeaveObject(w, s, proc, input); }
    else if proc.Starting? || proc.Listed? || proc.Rechecking? || proc.CreatingPackage? || proc.FetchingPackage? { DecidingLeavesObject(w, s, proc, input); }
    else { SyncingLeavesObject(w, s, proc, input); }
  }

  /** Steps of patch_fe_status. */
  lemma WritingPrograms(w: World, s: State, proc: Proc)
    requires IsWriting(proc) && (s.fe.Some? ==> AtMost(ObservedGeneration(s.fe.value), s.fe.value.generation) && PatchIsNewer(s.fe.value, proc))
    ensures var o := RunWriting(w, s, proc);
      && o.state.procs == s.procs && s.past <= o.state.past
      && (o.state.fe.Some? ==>
          && s.fe.Some? && o.state.fe.value.generation == s.fe.value.generation
          && AtMost(ObservedGeneration(o.state.fe.value), o.state.fe.value.generation)
          && (o.next.Some? ==> PatchIsNewer(o.state.fe.value, o.next.value)))
      && (!proc.Patching? && o.state.fe.Some? ==> s.fe.Some? && ObservedGeneration(o.state.fe.value) == ObservedGeneration(s.fe.value))
      && NotBack(s, o.state)
  {
    hide LabelsDue, PatchLabels, SourceHash, ArtifactKey, RebuildToken, MergePublish, MergeUnpublish, MergePackageJob, MergeArtifact;
  }

  lemma RunStep(w: World, s: State, s': State, pid: nat, input: Input)
    requires Serial(s) && Newest(s) && pid in s.procs && s' == AfterRun(w, s, pid, input)
    ensures Newest(s') && NotBack(s, s')
  {
    hide RunWriting, RunDeciding, RunSyncing, RunPackager, RunPublisher, RunDownload;
    var proc := s.procs[pid];
    var o := RunProc(w, s, proc, input);
    if IsWriting(proc) {
      assert o == RunWriting(w, s, proc);
      WritingPrograms(w, s, proc);
      forall q | q in s'.procs && s'.fe.Some? ensures PatchIsNewer(s'.fe.value, s'.procs[q]) {
        assert q != pid ==> !IsReconcile(s.procs[q]);
      }
    } else {
      hide RunProc;
      OtherPrograms(w, s, proc, input);
    }
  }

  lemma EditStep(s: State, s': State, fe: Fe)
    requires Newest(s) && s.fe.Some? && IsEdit(s.fe.value, fe) && s' == WithFe(s, fe)
    ensures Newest(s') && NotBack(s, s')
  {
  }

  lemma SerialStep(w: World, s: State, s': State, action: Action)
    requires Serial(s) && Newest(s) && OneLife(s, action) && Next(w, s, s', action)
    ensures Newest(s') && NotBack(s, s')
  {
    hide RunProc, InputFits, IsEdit, PatchIsNewer;
    match action
    case CreateFe(fe) =>
      assert forall pid :: pid in s.procs ==> !IsReconcile(s.procs[pid]);
      forall pid | pid in s'.procs ensures PatchIsNewer(fe, s'.procs[pid]) { OnlyPatches(fe, s'.procs[pid]); }
    case EditFe(fe) => EditStep(s, s', fe);
    case Run(pid, input) => RunStep(w, s, s', pid, input);
    case Spawn(pid, proc) =>
      forall q | q in s'.procs && s'.fe.Some? ensures PatchIsNewer(s'.fe.value, s'.procs[q]) {
        if q == pid { SpawnsNoPatch(s, proc); OnlyPatches(s'.fe.value, proc); }
      }
    case _ =>
  }

  lemma OnlyPatches(fe: Fe, proc: Proc)
    requires !proc.Patching?
    ensures PatchIsNewer(fe, proc)
  {
  }

  lemma SpawnsNoPatch(s: State, proc: Proc)
    requires CanSpawn(s, proc)
    ensures !proc.Patching? && (IsReconcile(proc) ==> s.past != {})
  {
  }

  lemma {:induction false} AlwaysNewest(w: World, states: seq<State>, actions: seq<Action>, i: nat)
    requires SerialRun(w, states, actions) && i < |states|
    ensures Newest(states[i])
  {
    hide Next, Newest, Serial, Init;
    if i == 0 {
      InitIsNewest(states[0]);
    } else {
      AlwaysNewest(w, states, actions, i - 1);
      RunNext(w, states, actions, i - 1);
      SerialStep(w, states[i - 1], states[i], actions[i - 1]);
    }
  }

  lemma InitIsNewest(s: State)
    requires Init(s)
    ensures Newest(s)
  {
  }

  /** The main result, between any two moments at which the extension is there. */
  lemma {:induction false} ObservedGenerationNeverDecreases(w: World, states: seq<State>, actions: seq<Action>, i: nat, j: nat)
    requires SerialRun(w, states, actions) && i <= j < |states|
    requires forall k :: i <= k <= j ==> states[k].fe.Some?
    ensures NotBack(states[i], states[j])
  {
    hide Next, Newest, Serial, Init, NotBack;
    if i < j {
      ObservedGenerationNeverDecreases(w, states, actions, i, j - 1);
      AlwaysNewest(w, states, actions, j - 1);
      RunNext(w, states, actions, j - 1);
      SerialStep(w, states[j - 1], states[j], actions[j - 1]);
    }
    NotBackChain(states[i], if i < j then states[j - 1] else states[i], states[j]);
  }

  lemma NotBackChain(a: State, b: State, c: State)
    requires a.fe.Some? && b.fe.Some? && c.fe.Some?
    requires NotBack(a, b) || a == b
    requires NotBack(b, c) || b == c
    ensures NotBack(a, c)
  {
  }
}
