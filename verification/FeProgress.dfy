/**
 How packaging ends: while an extension's source and rebuild token stay and no Job
 is removed, reconciles that do not wait for an attempt use up attempts until one
 writes Ready or Failed. This needs the names of the next attempts to be free: a
 name held by another extension's Job is never overcome.
 */
module FeProgress {
  import opened Prelude
  import opened Names
  import opened FeTypes
  import opened FeStatusRules
  import opened FeReconcile
  import opened FeAttempts

  function Group(w: World, fe: Fe): string {
    HashLabelValue(ArtifactKey(w, fe))
  }

  function AttemptJobName(w: World, fe: Fe, number: nat): string {
    PackageJobName(w.feName, ArtifactKey(w, fe), number)
  }

  /** The decision is the last one: an invalid source, a valid artifact, or attempts used up. */
  predicate Decides(d: Decision) {
    d.WriteInvalid? || d.SyncAndReady? || d.WriteExceeded?
  }

  // ----- One reconcile -----

  lemma WriteLeavesJobs(w: World, c: Cluster, desired: FeStatus, action: ActionTaken)
    ensures var next := WriteStatusSpec(w, c, desired, action).0; next.jobs == c.jobs && next.configMaps == c.configMaps
  {
    hide Observes, Patched;
  }

  lemma CreationEffect(w: World, c: Cluster, fe: Fe, latest: Option<Attempt>)
    requires !fe.deleting && FinalDecision(w, c, fe, latest).CreateAttempt?
    ensures var next := ReconcileSpec(w, c, fe, latest).0;
      var name := AttemptJobName(w, fe, FinalDecision(w, c, fe, latest).number);
      && next.configMaps == c.configMaps
      && next.jobs == if name in c.jobs then c.jobs else c.jobs[name := NewJob(w, name, w.uidAt(c.clock), c.clock, PackageTaskOf(w, fe))]
  {
    hide FinalDecision, PackageJobName, PackageTaskOf, ArtifactKey, WriteStatusSpec, SyncAndReadySpec, PackagingStatus, FailedStatus;
    var r := CreateOrGet(w, c, AttemptJobName(w, fe, FinalDecision(w, c, fe, latest).number), PackageTaskOf(w, fe));
    WriteLeavesJobs(w, r.0, PackagingStatus(w, fe, r.1, "Package job created"), Requeue);
  }

  lemma CreatedIsNext(w: World, c: Cluster, fe: Fe, latest: Option<Attempt>)
    requires w.maxAttempts <= MAX_U32 && FinalDecision(w, c, fe, latest).CreateAttempt?
    ensures 1 <= FinalDecision(w, c, fe, latest).number == NumberOf(latest) + 1 <= w.maxAttempts
  {
    hide Decide, DecideAgain, ArtifactName;
    CreatesNext(w, fe, latest, ConfigMapAt(c, ArtifactName(w, fe)));
  }

  /** A new attempt with the number after the latest one is one fewer to create. */
  lemma NewAttemptCounts(w: World, jobs: map<string, Job>, fe: Fe, latest: Option<Attempt>, job: Job)
    requires IsLatest(jobs, fe.uid, Group(w, fe), latest) && NumberOf(latest) + 1 <= w.maxAttempts <= MAX_U32
    requires job.name == AttemptJobName(w, fe, NumberOf(latest) + 1) && job.name !in jobs && job.task == PackageTaskOf(w, fe)
    ensures Remaining(w, jobs[job.name := job], fe.uid, Group(w, fe)) < Remaining(w, jobs, fe.uid, Group(w, fe))
  {
    hide PackageJobName, PackageAttemptFromName, HashLabelValue, ArtifactKey, SourceHash, ArtifactName, Finished;
    var number, next, uid, group := NumberOf(latest) + 1, jobs[job.name := job], fe.uid, Group(w, fe);
    AttemptRoundTrip(w.feName, ArtifactKey(w, fe), number);
    assert IsAttempt(next, uid, group, Attempt(number, job));
    assert number in Started(w, next, uid, group);
    assert number !in Started(w, jobs, uid, group);
    RemainingShrinks(w, jobs, next, uid, group);
    SubsetCount(Started(w, jobs, uid, group), Started(w, next, uid, group));
    SubsetCount(Ended(w, jobs, uid, group), Ended(w, next, uid, group));
  }

  /** A reconcile that creates an attempt leaves fewer exactly when the attempt's name is free; otherwise it changes no Job. */
  lemma CreationAdvances(w: World, c: Cluster, fe: Fe, latest: Option<Attempt>)
    requires w.maxAttempts <= MAX_U32 && !fe.deleting
    requires IsLatest(c.jobs, fe.uid, Group(w, fe), latest) && FinalDecision(w, c, fe, latest).CreateAttempt?
    ensures var next := ReconcileSpec(w, c, fe, latest).0;
      var held := AttemptJobName(w, fe, FinalDecision(w, c, fe, latest).number) in c.jobs;
      && (Remaining(w, next.jobs, fe.uid, Group(w, fe)) < Remaining(w, c.jobs, fe.uid, Group(w, fe)) <==> !held)
      && (held ==> next.jobs == c.jobs)
  {
    hide FinalDecision, ReconcileSpec, PackageJobName, PackageTaskOf, Group, Remaining, IsLatest;
    CreationEffect(w, c, fe, latest);
    CreatedIsNext(w, c, fe, latest);
    var name := AttemptJobName(w, fe, NumberOf(latest) + 1);
    if name !in c.jobs {
      NewAttemptCounts(w, c.jobs, fe, latest, NewJob(w, name, w.uidAt(c.clock), c.clock, PackageTaskOf(w, fe)));
    }
  }

  // ----- Free names -----

  /** Jobs are named as the controller names them, and the names of this extension's attempts are held by its attempts only. */
  ghost predicate NamesFree(w: World, jobs: map<string, Job>, fe: Fe) {
    && NamedJobs(w, jobs)
    && forall n: nat :: 1 <= n <= w.maxAttempts && AttemptJobName(w, fe, n) in jobs ==>
         InGroup(jobs[AttemptJobName(w, fe, n)], fe.uid, Group(w, fe))
  }

  lemma HolderIsAttempt(w: World, jobs: map<string, Job>, fe: Fe, number: nat)
    requires NamesFree(w, jobs, fe) && 1 <= number <= w.maxAttempts <= MAX_U32
    ensures var name := AttemptJobName(w, fe, number);
      name in jobs ==> IsAttempt(jobs, fe.uid, Group(w, fe), Attempt(number, jobs[name]))
  {
    hide PackageJobName, PackageAttemptFromName, ArtifactKey, InGroup, Group;
    var name := AttemptJobName(w, fe, number);
    AttemptRoundTrip(w.feName, ArtifactKey(w, fe), number);
    if name in jobs { assert NamedJob(w, name, jobs[name]); }
  }

  lemma NextNameIsFree(w: World, jobs: map<string, Job>, fe: Fe, latest: Option<Attempt>)
    requires NamesFree(w, jobs, fe) && IsLatest(jobs, fe.uid, Group(w, fe), latest) && NumberOf(latest) + 1 <= w.maxAttempts <= MAX_U32
    ensures AttemptJobName(w, fe, NumberOf(latest) + 1) !in jobs
  {
    hide AttemptJobName, IsAttempt, Group, NamesFree;
    HolderIsAttempt(w, jobs, fe, NumberOf(latest) + 1);
  }

  /** With free names a reconcile decides, or waits for an unfinished attempt, or leaves fewer attempts. */
  lemma ReconcileAdvances(w: World, c: Cluster, fe: Fe, latest: Option<Attempt>)
    requires w.maxAttempts <= MAX_U32 && !fe.deleting
    requires NamesFree(w, c.jobs, fe) && IsLatest(c.jobs, fe.uid, Group(w, fe), latest)
    ensures var d, next := FinalDecision(w, c, fe, latest), ReconcileSpec(w, c, fe, latest).0;
      || Decides(d)
      || (d.WriteInProgress? && latest.Some? && d.job == latest.value.job && !Finished(d.job.status)
          && IsAttempt(c.jobs, fe.uid, Group(w, fe), latest.value) && next.jobs == c.jobs)
      || (d.CreateAttempt? && Remaining(w, next.jobs, fe.uid, Group(w, fe)) < Remaining(w, c.jobs, fe.uid, Group(w, fe)))
  {
    hide FinalDecision, ReconcileSpec, PackageJobName, Group, Remaining, NamesFree, IsAttempt, Finished;
    var d := FinalDecision(w, c, fe, latest);
    if d.CreateAttempt? {
      CreatedIsNext(w, c, fe, latest);
      NextNameIsFree(w, c.jobs, fe, latest);
      CreationAdvances(w, c, fe, latest);
    } else if d.WriteInProgress? {
      WaitingIsForUnfinished(w, c, fe, latest);
    }
  }

  lemma WaitingIsForUnfinished(w: World, c: Cluster, fe: Fe, latest: Option<Attempt>)
    requires !fe.deleting && FinalDecision(w, c, fe, latest).WriteInProgress?
    ensures latest.Some? && FinalDecision(w, c, fe, latest).job == latest.value.job && !Finished(latest.value.job.status)
    ensures ReconcileSpec(w, c, fe, latest).0.jobs == c.jobs
  {
    hide ArtifactIn, ArtifactName, HashLabelValue, ArtifactKey, JobMessage, ObservedPhase, PackageJobOf, WriteStatusSpec, SyncAndReadySpec, PackagingStatus, FailedStatus;
    WriteLeavesJobs(w, c, PackagingStatus(w, fe, FinalDecision(w, c, fe, latest).job, "Package job in progress"), Requeue);
  }

  // ----- Runs -----

  /** A snapshot of the extension with the same source and rebuild token. */
  predicate SameArtifact(fe: Fe, snapshot: Fe) {
    snapshot.uid == fe.uid && snapshot.source == fe.source && RebuildToken(snapshot) == RebuildToken(fe)
  }

  /** A reconcile from some snapshot, the progress of a Job, or any change that leaves the Jobs. */
  datatype PackStep =
    | ReconcileOf(snapshot: Fe, latest: Option<Attempt>)
    | ProgressOf(name: string, status: Option<JobStatus>)
    | OtherChange

  ghost predicate PackNext(w: World, fe: Fe, c: Cluster, next: Cluster, step: PackStep) {
    match step
    case ReconcileOf(snapshot, latest) =>
      && SameArtifact(fe, snapshot) && !snapshot.deleting
      && IsLatest(c.jobs, fe.uid, Group(w, fe), latest) && next == ReconcileSpec(w, c, snapshot, latest).0
    case ProgressOf(name, status) =>
      && name in c.jobs && !Finished(c.jobs[name].status)
      && next == c.(jobs := c.jobs[name := c.jobs[name].(status := status)])
    case OtherChange => next.jobs == c.jobs
  }

  /** The step is no reconcile with a last decision. */
  predicate Undecided(w: World, c: Cluster, step: PackStep) {
    step.ReconcileOf? ==> !Decides(FinalDecision(w, c, step.snapshot, step.latest))
  }

  ghost predicate UndecidedRun(w: World, fe: Fe, cs: seq<Cluster>, steps: seq<PackStep>) {
    && |cs| == |steps| + 1
    && forall i :: 0 <= i < |steps| ==> PackNext(w, fe, cs[i], cs[i + 1], steps[i]) && Undecided(w, cs[i], steps[i])
  }

  /** The step is a reconcile that does not wait, or finishes an attempt. */
  ghost predicate Moves(w: World, fe: Fe, c: Cluster, step: PackStep) {
    match step
    case ReconcileOf(snapshot, latest) => !FinalDecision(w, c, snapshot, latest).WriteInProgress?
    case ProgressOf(name, status) =>
      && name in c.jobs && Finished(status)
      && exists n: nat :: IsAttempt(c.jobs, fe.uid, Group(w, fe), Attempt(n, c.jobs[name]))
    case OtherChange => false
  }

  ghost function Count(w: World, fe: Fe, cs: seq<Cluster>, steps: seq<PackStep>): nat
    requires |cs| == |steps| + 1
  {
    if steps == [] then 0 else (if Moves(w, fe, cs[0], steps[0]) then 1 else 0) + Count(w, fe, cs[1..], steps[1..])
  }

  lemma SameNames(w: World, jobs: map<string, Job>, fe: Fe, snapshot: Fe)
    requires SameArtifact(fe, snapshot)
    ensures ArtifactKey(w, snapshot) == ArtifactKey(w, fe) && Group(w, snapshot) == Group(w, fe)
    ensures NamesFree(w, jobs, snapshot) <==> NamesFree(w, jobs, fe)
  {
    hide RebuildToken, PackageJobName, HashLabelValue, NamedJobs, InGroup;
    assert forall n: nat :: AttemptJobName(w, snapshot, n) == AttemptJobName(w, fe, n);
  }

  lemma CreationKeepsNames(w: World, jobs: map<string, Job>, fe: Fe, number: nat, job: Job)
    requires NamesFree(w, jobs, fe) && 1 <= number <= w.maxAttempts
    requires job.name == AttemptJobName(w, fe, number) && job.task == PackageTaskOf(w, fe)
    ensures NamesFree(w, jobs[job.name := job], fe)
  {
    hide PackageJobName, HashLabelValue, ArtifactKey, SourceHash, ArtifactName;
    assert NamedJob(w, job.name, job);
  }

  lemma ReconcileMeasure(w: World, fe: Fe, c: Cluster, next: Cluster, step: PackStep)
    requires w.maxAttempts <= MAX_U32 && NamesFree(w, c.jobs, fe)
    requires step.ReconcileOf? && PackNext(w, fe, c, next, step) && Undecided(w, c, step)
    ensures NamesFree(w, next.jobs, fe)
    ensures Remaining(w, next.jobs, fe.uid, Group(w, fe)) <= Remaining(w, c.jobs, fe.uid, Group(w, fe))
    ensures Moves(w, fe, c, step) ==> Remaining(w, next.jobs, fe.uid, Group(w, fe)) < Remaining(w, c.jobs, fe.uid, Group(w, fe))
  {
    hide FinalDecision, ReconcileSpec, AttemptJobName, Group, Remaining, NamesFree, IsAttempt, Finished, PackageTaskOf, IsLatest, ArtifactKey;
    var snapshot, latest := step.snapshot, step.latest;
    SameNames(w, c.jobs, fe, snapshot);
    ReconcileAdvances(w, c, snapshot, latest);
    var d := FinalDecision(w, c, snapshot, latest);
    if d.CreateAttempt? {
      CreatedIsNext(w, c, snapshot, latest);
      CreationEffect(w, c, snapshot, latest);
      var name := AttemptJobName(w, snapshot, d.number);
      CreationKeepsNames(w, c.jobs, snapshot, d.number, NewJob(w, name, w.uidAt(c.clock), c.clock, PackageTaskOf(w, snapshot)));
      SameNames(w, next.jobs, fe, snapshot);
    }
  }

  lemma ProgressMeasure(w: World, fe: Fe, c: Cluster, next: Cluster, step: PackStep)
    requires w.maxAttempts <= MAX_U32 && NamesFree(w, c.jobs, fe)
    requires step.ProgressOf? && PackNext(w, fe, c, next, step)
    ensures NamesFree(w, next.jobs, fe)
    ensures Remaining(w, next.jobs, fe.uid, Group(w, fe)) <= Remaining(w, c.jobs, fe.uid, Group(w, fe))
    ensures Moves(w, fe, c, step) ==> Remaining(w, next.jobs, fe.uid, Group(w, fe)) < Remaining(w, c.jobs, fe.uid, Group(w, fe))
  {
    hide PackageJobName, PackageAttemptFromName, HashLabelValue, ArtifactKey, Finished, Started, Ended;
    var uid, group, job := fe.uid, Group(w, fe), c.jobs[step.name];
    assert NamedJob(w, step.name, job);
    RemainingShrinks(w, c.jobs, next.jobs, uid, group);
    SubsetCount(Started(w, c.jobs, uid, group), Started(w, next.jobs, uid, group));
    SubsetCount(Ended(w, c.jobs, uid, group), Ended(w, next.jobs, uid, group));
    if Moves(w, fe, c, step) {
      var n: nat :| IsAttempt(c.jobs, uid, group, Attempt(n, job));
      FinishedCounts(w, fe, c.jobs, n, step.name, step.status);
    }
  }

  /** An attempt that finishes is a number newly used up. */
  lemma FinishedCounts(w: World, fe: Fe, jobs: map<string, Job>, n: nat, name: string, status: Option<JobStatus>)
    requires w.maxAttempts <= MAX_U32 && NamedJobs(w, jobs)
    requires name in jobs && IsAttempt(jobs, fe.uid, Group(w, fe), Attempt(n, jobs[name])) && !Finished(jobs[name].status) && Finished(status)
    ensures n !in Ended(w, jobs, fe.uid, Group(w, fe))
    ensures n in Ended(w, jobs[name := jobs[name].(status := status)], fe.uid, Group(w, fe))
  {
    hide PackageJobName, PackageAttemptFromName, HashLabelValue, ArtifactKey, Finished;
    var job, uid, group := jobs[name], fe.uid, Group(w, fe);
    assert NamedJob(w, name, job);
    AttemptName(w, jobs, uid, ArtifactKey(w, fe), Attempt(n, job));
    if n in Ended(w, jobs, uid, group) {
      var a :| IsAttempt(jobs, uid, group, a) && a.number == n && Finished(a.job.status);
      AttemptsDistinct(w, jobs, uid, ArtifactKey(w, fe), a, Attempt(n, job));
    }
    assert IsAttempt(jobs[name := job.(status := status)], uid, group, Attempt(n, job.(status := status)));
  }

  lemma StepMeasure(w: World, fe: Fe, c: Cluster, next: Cluster, step: PackStep)
    requires w.maxAttempts <= MAX_U32 && NamesFree(w, c.jobs, fe)
    requires PackNext(w, fe, c, next, step) && Undecided(w, c, step)
    ensures NamesFree(w, next.jobs, fe)
    ensures Remaining(w, next.jobs, fe.uid, Group(w, fe)) + (if Moves(w, fe, c, step) then 1 else 0)
            <= Remaining(w, c.jobs, fe.uid, Group(w, fe))
  {
    hide PackNext, Undecided, Moves, NamesFree, Remaining, Group;
    match step
    case ReconcileOf(_, _) => ReconcileMeasure(w, fe, c, next, step);
    case ProgressOf(_, _) => ProgressMeasure(w, fe, c, next, step);
    case OtherChange => OtherMeasure(w, fe, c, next);
  }

  lemma OtherMeasure(w: World, fe: Fe, c: Cluster, next: Cluster)
    requires PackNext(w, fe, c, next, OtherChange)
    ensures next.jobs == c.jobs && !Moves(w, fe, c, OtherChange)
  {
  }

  lemma {:induction false} MovesAreBounded(w: World, fe: Fe, cs: seq<Cluster>, steps: seq<PackStep>)
    requires w.maxAttempts <= MAX_U32 && UndecidedRun(w, fe, cs, steps) && NamesFree(w, cs[0].jobs, fe)
    ensures Count(w, fe, cs, steps) <= Remaining(w, cs[0].jobs, fe.uid, Group(w, fe))
  {
    hide PackNext, Undecided, Moves, NamesFree, Remaining, Group;
    if steps == [] {
      RemainingIsNatural(w, cs[0].jobs, fe.uid, Group(w, fe));
    } else {
      assert PackNext(w, fe, cs[0], cs[1], steps[0]) && Undecided(w, cs[0], steps[0]);
      StepMeasure(w, fe, cs[0], cs[1], steps[0]);
      TailRun(w, fe, cs, steps);
      MovesAreBounded(w, fe, cs[1..], steps[1..]);
    }
  }

  lemma TailRun(w: World, fe: Fe, cs: seq<Cluster>, steps: seq<PackStep>)
    requires UndecidedRun(w, fe, cs, steps) && steps != []
    ensures UndecidedRun(w, fe, cs[1..], steps[1..])
  {
    hide PackNext, Undecided;
    var ds, rest := cs[1..], steps[1..];
    forall i | 0 <= i < |rest| ensures PackNext(w, fe, ds[i], ds[i + 1], rest[i]) && Undecided(w, ds[i], rest[i]) {
      assert ds[i] == cs[i + 1] && ds[i + 1] == cs[i + 2] && rest[i] == steps[i + 1];
      assert PackNext(w, fe, cs[i + 1], cs[i + 2], steps[i + 1]) && Undecided(w, cs[i + 1], steps[i + 1]);
    }
  }

  /**
   The main result: with free names, before any reconcile writes Ready or Failed,
   the reconciles that do not wait and the attempts that finish are together at
   most twice the limit.
   */
  lemma DecidesInTime(w: World, fe: Fe, cs: seq<Cluster>, steps: seq<PackStep>)
    requires w.maxAttempts <= MAX_U32 && UndecidedRun(w, fe, cs, steps) && NamesFree(w, cs[0].jobs, fe)
    ensures Count(w, fe, cs, steps) <= Remaining(w, cs[0].jobs, fe.uid, Group(w, fe)) <= 2 * w.maxAttempts
  {
    hide UndecidedRun, NamesFree, Group;
    MovesAreBounded(w, fe, cs, steps);
  }

  // ----- A held name -----

  lemma SameDecision(w: World, c: Cluster, c': Cluster, fe: Fe, snapshot: Fe, latest: Option<Attempt>)
    requires SameArtifact(fe, snapshot) && c'.configMaps == c.configMaps && FinalDecision(w, c, fe, latest).CreateAttempt?
    ensures FinalDecision(w, c', snapshot, latest) == FinalDecision(w, c, fe, latest)
  {
    hide RebuildToken, ArtifactMetadata, ArtifactConfigMapName, HashLabelValue, JobMessage, ObservedPhase, PackageJobOf;
    assert ArtifactKey(w, snapshot) == ArtifactKey(w, fe) && ArtifactName(w, snapshot) == ArtifactName(w, fe);
  }

  ghost predicate ReconcilesOnly(w: World, fe: Fe, cs: seq<Cluster>, steps: seq<PackStep>) {
    && |cs| == |steps| + 1
    && forall i :: 0 <= i < |steps| ==> steps[i].ReconcileOf? && PackNext(w, fe, cs[i], cs[i + 1], steps[i])
  }

  /** When the name of the attempt to create is held by a Job that is no attempt, no number of reconciles creates it. */
  lemma {:induction false} HeldNameIsNeverOvercome(
    w: World, fe: Fe, latest: Option<Attempt>, cs: seq<Cluster>, steps: seq<PackStep>, i: nat)
    requires ReconcilesOnly(w, fe, cs, steps) && i < |cs|
    requires IsLatest(cs[0].jobs, fe.uid, Group(w, fe), latest) && FinalDecision(w, cs[0], fe, latest).CreateAttempt?
    requires AttemptJobName(w, fe, FinalDecision(w, cs[0], fe, latest).number) in cs[0].jobs
    ensures cs[i].jobs == cs[0].jobs && cs[i].configMaps == cs[0].configMaps
    ensures i < |steps| ==> FinalDecision(w, cs[i], steps[i].snapshot, steps[i].latest) == FinalDecision(w, cs[0], fe, latest)
    decreases i
  {
    hide FinalDecision, ReconcileSpec, IsLatest, AttemptJobName, ArtifactKey, Group;
    if i > 0 {
      HeldNameIsNeverOvercome(w, fe, latest, cs, steps, i - 1);
      assert PackNext(w, fe, cs[i - 1], cs[i], steps[i - 1]);
      SameNames(w, cs[0].jobs, fe, steps[i - 1].snapshot);
      CreationEffect(w, cs[i - 1], steps[i - 1].snapshot, steps[i - 1].latest);
      SameAttemptName(w, fe, steps[i - 1].snapshot, FinalDecision(w, cs[0], fe, latest).number);
    }
    if i < |steps| {
      assert PackNext(w, fe, cs[i], cs[i + 1], steps[i]);
      LatestIsUnique(cs[0].jobs, fe.uid, Group(w, fe), latest, steps[i].latest);
      SameDecision(w, cs[0], cs[i], fe, steps[i].snapshot, latest);
    }
  }

  lemma SameAttemptName(w: World, fe: Fe, snapshot: Fe, number: nat)
    requires ArtifactKey(w, snapshot) == ArtifactKey(w, fe)
    ensures AttemptJobName(w, snapshot, number) == AttemptJobName(w, fe, number)
  {
  }

  /** A cluster whose only Job is the first attempt of an earlier extension of the same name, source and token. */
  function Leftover(w: World, fe: Fe, earlier: Fe): Cluster {
    var name := AttemptJobName(w, fe, 1);
    Cluster(Some(fe), map[name := NewJob(w, name, "", 0, PackageTaskOf(w, earlier))], map[], 0)
  }

  /** Such a cluster is stuck: the names are the controller's, no attempt is listed, and creating the first one changes no Job. */
  lemma LeftoverIsStuck(w: World, fe: Fe, earlier: Fe)
    requires 1 <= w.maxAttempts <= MAX_U32 && w.valid(fe.source) && !fe.deleting
    requires SameArtifact(fe, earlier.(uid := fe.uid)) && earlier.uid != fe.uid
    ensures var c := Leftover(w, fe, earlier);
      && NamedJobs(w, c.jobs) && IsLatest(c.jobs, fe.uid, Group(w, fe), None)
      && FinalDecision(w, c, fe, None) == CreateAttempt(1)
      && ReconcileSpec(w, c, fe, None).0.jobs == c.jobs
      && Remaining(w, c.jobs, fe.uid, Group(w, fe)) == 2 * w.maxAttempts
  {
    hide PackageJobName, PackageAttemptFromName, HashLabelValue, RebuildToken, ReconcileSpec, PackageTaskOf, ArtifactName, NamedJobs;
    var c := Leftover(w, fe, earlier);
    LeftoverJobs(w, fe, earlier);
    assert IsLatest(c.jobs, fe.uid, Group(w, fe), None);
    assert Started(w, c.jobs, fe.uid, Group(w, fe)) == {} && Ended(w, c.jobs, fe.uid, Group(w, fe)) == {};
    CreationEffect(w, c, fe, None);
  }

  lemma LeftoverJobs(w: World, fe: Fe, earlier: Fe)
    requires 1 <= w.maxAttempts && SameArtifact(fe, earlier.(uid := fe.uid)) && earlier.uid != fe.uid
    ensures NamedJobs(w, Leftover(w, fe, earlier).jobs)
    ensures forall a :: !IsAttempt(Leftover(w, fe, earlier).jobs, fe.uid, Group(w, fe), a)
  {
    hide PackageJobName, PackageAttemptFromName, HashLabelValue, ArtifactName;
    assert RebuildToken(earlier) == RebuildToken(earlier.(uid := fe.uid));
    assert ArtifactKey(w, earlier) == ArtifactKey(w, fe);
  }
}
