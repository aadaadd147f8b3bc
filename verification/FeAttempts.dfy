/**
 Package attempts when several reconciles interleave: the Jobs of one artifact key
 are attempts 1 to the limit, each at most once, and only the highest may be
 unfinished, as long as no package Job is garbage-collected between a reconcile
 listing the Jobs and creating the next one.
 */
module FeAttempts {
  import opened Prelude
  import opened Names
  import opened FeTypes
  import opened FeStatusRules
  import opened FeReconcile
  import opened FeProtocol

  // ----- Attempts and their names -----

  /** Jobs are stored under their names; a package Job's name encodes its key and an attempt within the limit. */
  ghost predicate NamedJobs(w: World, jobs: map<string, Job>) {
    forall name :: name in jobs ==> NamedJob(w, name, jobs[name])
  }

  ghost predicate NamedJob(w: World, name: string, job: Job) {
    && job.name == name
    && (job.task.PackageTask? ==> exists n: nat :: 1 <= n <= w.maxAttempts && name == PackageJobName(w.feName, job.task.artifactKey, n))
  }

  lemma SameLabelSameName(feName: string, key: string, key': string, n: nat)
    requires HashLabelValue(key) == HashLabelValue(key')
    ensures PackageJobName(feName, key, n) == PackageJobName(feName, key', n)
  {
    hide HashLabelValue, HashNameSuffix, BoundedNamePreservingSuffix, Decimal;
    LabelDeterminesSuffix(key, key');
  }

  /** An attempt's number is within the limit, and is the one in its name. */
  lemma AttemptName(w: World, jobs: map<string, Job>, uid: string, key: string, a: Attempt)
    requires w.maxAttempts <= MAX_U32 && NamedJobs(w, jobs) && IsAttempt(jobs, uid, HashLabelValue(key), a)
    ensures 1 <= a.number <= w.maxAttempts && a.job.name == PackageJobName(w.feName, key, a.number)
  {
    hide PackageJobName, PackageAttemptFromName, HashLabelValue;
    assert NamedJob(w, a.job.name, a.job);
    var n: nat :| 1 <= n <= w.maxAttempts && a.job.name == PackageJobName(w.feName, a.job.task.artifactKey, n);
    AttemptRoundTrip(w.feName, a.job.task.artifactKey, n);
    SameLabelSameName(w.feName, a.job.task.artifactKey, key, n);
  }

  /** Attempts of one key with one number are one Job. */
  lemma AttemptsDistinct(w: World, jobs: map<string, Job>, uid: string, key: string, a: Attempt, b: Attempt)
    requires w.maxAttempts <= MAX_U32 && NamedJobs(w, jobs) && a.number == b.number
    requires IsAttempt(jobs, uid, HashLabelValue(key), a) && IsAttempt(jobs, uid, HashLabelValue(key), b)
    ensures a == b
  {
    hide PackageJobName, PackageAttemptFromName, HashLabelValue, NamedJobs;
    AttemptName(w, jobs, uid, key, a);
    AttemptName(w, jobs, uid, key, b);
  }

  ghost predicate Used(jobs: map<string, Job>, uid: string, group: string, n: nat) {
    exists a :: IsAttempt(jobs, uid, group, a) && a.number == n
  }

  ghost predicate OnlyHighestUnfinished(jobs: map<string, Job>) {
    forall uid, group, a, b ::
      IsAttempt(jobs, uid, group, a) && IsAttempt(jobs, uid, group, b) && a.number < b.number ==> Finished(a.job.status)
  }

  // ----- Between listing and creating -----

  predicate InWindow(proc: Proc) {
    proc.Listed? || proc.Rechecking? || proc.CreatingPackage?
  }

  function NumberOf(latest: Option<Attempt>): nat {
    if latest.Some? then latest.value.number else 0
  }

  /**
   What stays true of a listing: its latest attempt is still there, unchanged if it
   had finished; and unless the next attempt has been created meanwhile, no attempt
   is higher than the listed one.
   */
  ghost predicate ListingHolds(w: World, jobs: map<string, Job>, fe: Fe, latest: Option<Attempt>) {
    var group := HashLabelValue(ArtifactKey(w, fe));
    && (latest.Some? ==>
        && latest.value.job.name in jobs && jobs[latest.value.job.name].name == latest.value.job.name
        && IsAttempt(jobs, fe.uid, group, Attempt(latest.value.number, jobs[latest.value.job.name]))
        && (Finished(latest.value.job.status) ==> jobs[latest.value.job.name] == latest.value.job))
    && (Used(jobs, fe.uid, group, NumberOf(latest) + 1)
        || forall a :: IsAttempt(jobs, fe.uid, group, a) ==> a.number <= NumberOf(latest))
  }

  ghost predicate WindowOk(w: World, jobs: map<string, Job>, proc: Proc) {
    match proc
    case Listed(fe, latest) => ListingHolds(w, jobs, fe, latest)
    case Rechecking(fe, latest, attempt) => ListingHolds(w, jobs, fe, latest) && latest == Some(attempt) && Finished(attempt.job.status)
    case CreatingPackage(fe, latest, number) =>
      && ListingHolds(w, jobs, fe, latest)
      && number == NumberOf(latest) + 1 && number <= w.maxAttempts
      && (latest.Some? ==> Finished(latest.value.job.status))
    case _ => true
  }

  ghost predicate AttemptsOk(w: World, s: State) {
    && NamedJobs(w, s.jobs) && OnlyHighestUnfinished(s.jobs)
    && forall pid :: pid in s.procs ==> WindowOk(w, s.jobs, s.procs[pid])
  }

  /** A package Job is garbage-collected only when it has finished and no reconcile is between listing and creating. */
  ghost predicate CollectsSafely(s: State, action: Action) {
    action.RemoveJob? && action.name in s.jobs && s.jobs[action.name].task.PackageTask? ==>
      && Finished(s.jobs[action.name].status)
      && forall pid :: pid in s.procs ==> !InWindow(s.procs[pid])
  }

  // ----- Creating an attempt -----

  function NewAttempt(w: World, fe: Fe, number: nat, input: Input): Attempt {
    Attempt(number, NewJob(w, PackageJobName(w.feName, ArtifactKey(w, fe), number), input.uid, input.time, PackageTaskOf(w, fe)))
  }

  lemma NewAttemptNumber(w: World, fe: Fe, number: nat, input: Input)
    ensures var added := NewAttempt(w, fe, number, input); added.number == number && added.job.name == PackageJobName(w.feName, ArtifactKey(w, fe), number)
  {
  }

  lemma AttemptsAfterCreate(w: World, jobs: map<string, Job>, fe: Fe, number: nat, input: Input, uid: string, group: string, a: Attempt)
    requires 1 <= number <= w.maxAttempts <= MAX_U32
    requires var added := NewAttempt(w, fe, number, input); added.job.name !in jobs
    ensures var added := NewAttempt(w, fe, number, input);
      IsAttempt(jobs[added.job.name := added.job], uid, group, a) <==>
        IsAttempt(jobs, uid, group, a) || (a == added && uid == fe.uid && group == HashLabelValue(ArtifactKey(w, fe)))
  {
    hide PackageJobName, PackageAttemptFromName, HashLabelValue, ArtifactKey, SourceHash, ArtifactName;
    AttemptRoundTrip(w.feName, ArtifactKey(w, fe), number);
  }

  /** Just before it is created, the next attempt is above all others and they have all finished. */
  lemma NextIsAbove(w: World, s: State, fe: Fe, latest: Option<Attempt>, a: Attempt)
    requires w.maxAttempts <= MAX_U32 && AttemptsOk(w, s)
    requires ListingHolds(w, s.jobs, fe, latest) && (latest.Some? ==> Finished(latest.value.job.status))
    requires PackageJobName(w.feName, ArtifactKey(w, fe), NumberOf(latest) + 1) !in s.jobs
    requires IsAttempt(s.jobs, fe.uid, HashLabelValue(ArtifactKey(w, fe)), a)
    ensures a.number <= NumberOf(latest) && Finished(a.job.status)
  {
    hide PackageJobName, PackageAttemptFromName, HashLabelValue, ArtifactKey, NamedJobs, WindowOk, Finished;
    var key := ArtifactKey(w, fe);
    if Used(s.jobs, fe.uid, HashLabelValue(key), NumberOf(latest) + 1) {
      var b :| IsAttempt(s.jobs, fe.uid, HashLabelValue(key), b) && b.number == NumberOf(latest) + 1;
      AttemptName(w, s.jobs, fe.uid, key, b);
      assert false;
    }
    AttemptName(w, s.jobs, fe.uid, key, a);
    if latest.Some? && a.number == latest.value.number {
      AttemptsDistinct(w, s.jobs, fe.uid, key, a, Attempt(latest.value.number, s.jobs[latest.value.job.name]));
    }
  }

  lemma CreateKeepsListing(
    w: World, s: State, fe: Fe, latest: Option<Attempt>, input: Input, other: Fe, listed: Option<Attempt>)
    requires w.maxAttempts <= MAX_U32 && AttemptsOk(w, s) && NumberOf(latest) + 1 <= w.maxAttempts
    requires ListingHolds(w, s.jobs, fe, latest) && (latest.Some? ==> Finished(latest.value.job.status))
    requires var added := NewAttempt(w, fe, NumberOf(latest) + 1, input); added.job.name !in s.jobs
    requires ListingHolds(w, s.jobs, other, listed)
    ensures var added := NewAttempt(w, fe, NumberOf(latest) + 1, input);
      ListingHolds(w, s.jobs[added.job.name := added.job], other, listed)
  {
    hide HashLabelValue, ArtifactKey, NewAttempt, AttemptsOk, Used, Finished, IsAttempt;
    var added := NewAttempt(w, fe, NumberOf(latest) + 1, input);
    var jobs', group := s.jobs[added.job.name := added.job], HashLabelValue(ArtifactKey(w, other));
    if listed.Some? {
      AttemptsAfterCreate(w, s.jobs, fe, NumberOf(latest) + 1, input, other.uid, group, Attempt(listed.value.number, s.jobs[listed.value.job.name]));
    }
    if Used(s.jobs, other.uid, group, NumberOf(listed) + 1) || (other.uid == fe.uid && group == HashLabelValue(ArtifactKey(w, fe))) {
      CreateUsesNext(w, s, fe, latest, input, other, listed);
    } else {
      forall a | IsAttempt(jobs', other.uid, group, a) ensures a.number <= NumberOf(listed) {
        AttemptsAfterCreate(w, s.jobs, fe, NumberOf(latest) + 1, input, other.uid, group, a);
      }
    }
  }

  /** In the group of the new attempt, and where it was already, the number after the listed one is used. */
  lemma CreateUsesNext(
    w: World, s: State, fe: Fe, latest: Option<Attempt>, input: Input, other: Fe, listed: Option<Attempt>)
    requires w.maxAttempts <= MAX_U32 && AttemptsOk(w, s) && NumberOf(latest) + 1 <= w.maxAttempts
    requires ListingHolds(w, s.jobs, fe, latest) && (latest.Some? ==> Finished(latest.value.job.status))
    requires var added := NewAttempt(w, fe, NumberOf(latest) + 1, input); added.job.name !in s.jobs
    requires ListingHolds(w, s.jobs, other, listed)
    requires
      || Used(s.jobs, other.uid, HashLabelValue(ArtifactKey(w, other)), NumberOf(listed) + 1)
      || (other.uid == fe.uid && HashLabelValue(ArtifactKey(w, other)) == HashLabelValue(ArtifactKey(w, fe)))
    ensures var added := NewAttempt(w, fe, NumberOf(latest) + 1, input);
      Used(s.jobs[added.job.name := added.job], other.uid, HashLabelValue(ArtifactKey(w, other)), NumberOf(listed) + 1)
  {
    hide HashLabelValue, ArtifactKey, PackageJobName, AttemptsOk, Finished, IsAttempt, PackageTaskOf;
    var number, added, group := NumberOf(latest) + 1, NewAttempt(w, fe, NumberOf(latest) + 1, input), HashLabelValue(ArtifactKey(w, other));
    if Used(s.jobs, other.uid, group, NumberOf(listed) + 1) {
      var a :| IsAttempt(s.jobs, other.uid, group, a) && a.number == NumberOf(listed) + 1;
      AttemptsAfterCreate(w, s.jobs, fe, number, input, other.uid, group, a);
    } else {
      if listed.Some? { NextIsAbove(w, s, fe, latest, Attempt(listed.value.number, s.jobs[listed.value.job.name])); }
      if latest.Some? { assert IsAttempt(s.jobs, other.uid, group, Attempt(latest.value.number, s.jobs[latest.value.job.name])); }
      assert NumberOf(latest) == NumberOf(listed);
      AttemptsAfterCreate(w, s.jobs, fe, number, input, other.uid, group, added);
    }
  }

  lemma CreateKeepsOrder(
    w: World, s: State, fe: Fe, latest: Option<Attempt>, input: Input, uid: string, group: string, a: Attempt, b: Attempt)
    requires w.maxAttempts <= MAX_U32 && AttemptsOk(w, s) && NumberOf(latest) + 1 <= w.maxAttempts
    requires ListingHolds(w, s.jobs, fe, latest) && (latest.Some? ==> Finished(latest.value.job.status))
    requires var added := NewAttempt(w, fe, NumberOf(latest) + 1, input);
      && added.job.name !in s.jobs
      && IsAttempt(s.jobs[added.job.name := added.job], uid, group, a) && IsAttempt(s.jobs[added.job.name := added.job], uid, group, b)
    requires a.number < b.number
    ensures Finished(a.job.status)
  {
    hide NewAttempt, PackageJobName, HashLabelValue, ArtifactKey, Finished, IsAttempt, ListingHolds, NamedJobs, WindowOk, NumberOf;
    NewAttemptNumber(w, fe, NumberOf(latest) + 1, input);
    AttemptsAfterCreate(w, s.jobs, fe, NumberOf(latest) + 1, input, uid, group, a);
    AttemptsAfterCreate(w, s.jobs, fe, NumberOf(latest) + 1, input, uid, group, b);
    if IsAttempt(s.jobs, uid, group, a) {
      if !IsAttempt(s.jobs, uid, group, b) { NextIsAbove(w, s, fe, latest, a); }
    } else {
      if IsAttempt(s.jobs, uid, group, b) { NextIsAbove(w, s, fe, latest, b); }
    }
  }

  lemma CreateKeepsWindow(w: World, s: State, fe: Fe, latest: Option<Attempt>, input: Input, proc: Proc)
    requires w.maxAttempts <= MAX_U32 && AttemptsOk(w, s) && NumberOf(latest) + 1 <= w.maxAttempts
    requires ListingHolds(w, s.jobs, fe, latest) && (latest.Some? ==> Finished(latest.value.job.status))
    requires var added := NewAttempt(w, fe, NumberOf(latest) + 1, input); added.job.name !in s.jobs
    requires WindowOk(w, s.jobs, proc)
    ensures var added := NewAttempt(w, fe, NumberOf(latest) + 1, input); WindowOk(w, s.jobs[added.job.name := added.job], proc)
  {
    hide AttemptsOk, ListingHolds, NewAttempt, Finished;
    if InWindow(proc) { CreateKeepsListing(w, s, fe, latest, input, proc.fe, proc.latest); }
  }

  lemma CreateKeepsHighest(w: World, s: State, fe: Fe, latest: Option<Attempt>, input: Input)
    requires w.maxAttempts <= MAX_U32 && AttemptsOk(w, s) && NumberOf(latest) + 1 <= w.maxAttempts
    requires ListingHolds(w, s.jobs, fe, latest) && (latest.Some? ==> Finished(latest.value.job.status))
    requires var added := NewAttempt(w, fe, NumberOf(latest) + 1, input); added.job.name !in s.jobs
    ensures var added := NewAttempt(w, fe, NumberOf(latest) + 1, input); OnlyHighestUnfinished(s.jobs[added.job.name := added.job])
  {
    hide NewAttempt, Finished, IsAttempt, ListingHolds, AttemptsOk;
    var added := NewAttempt(w, fe, NumberOf(latest) + 1, input);
    var jobs' := s.jobs[added.job.name := added.job];
    forall uid, l, a, b | IsAttempt(jobs', uid, l, a) && IsAttempt(jobs', uid, l, b) && a.number < b.number ensures Finished(a.job.status) {
      CreateKeepsOrder(w, s, fe, latest, input, uid, l, a, b);
    }
  }

  lemma CreateStep(w: World, s: State, fe: Fe, latest: Option<Attempt>, input: Input)
    requires w.maxAttempts <= MAX_U32 && AttemptsOk(w, s) && NumberOf(latest) + 1 <= w.maxAttempts
    requires ListingHolds(w, s.jobs, fe, latest) && (latest.Some? ==> Finished(latest.value.job.status))
    requires var added := NewAttempt(w, fe, NumberOf(latest) + 1, input); added.job.name !in s.jobs
    ensures var added := NewAttempt(w, fe, NumberOf(latest) + 1, input);
      AttemptsOk(w, s.(jobs := s.jobs[added.job.name := added.job]))
  {
    hide NewAttempt, Finished, IsAttempt, ListingHolds, NamedJob, WindowOk, OnlyHighestUnfinished;
    var added := NewAttempt(w, fe, NumberOf(latest) + 1, input);
    CreateKeepsHighest(w, s, fe, latest, input);
    NewIsNamed(w, fe, NumberOf(latest) + 1, input);
    forall pid | pid in s.procs ensures WindowOk(w, s.jobs[added.job.name := added.job], s.procs[pid]) {
      CreateKeepsWindow(w, s, fe, latest, input, s.procs[pid]);
    }
  }

  lemma NewIsNamed(w: World, fe: Fe, number: nat, input: Input)
    requires 1 <= number <= w.maxAttempts
    ensures var added := NewAttempt(w, fe, number, input); NamedJob(w, added.job.name, added.job)
  {
    hide PackageJobName, ArtifactKey, SourceHash, ArtifactName;
  }

  // ----- Changes to other Jobs -----

  /** The attempts of `next` are those of `jobs`, each unchanged if it had finished. */
  ghost predicate SameAttempts(jobs: map<string, Job>, next: map<string, Job>) {
    && (forall uid, group, a :: IsAttempt(next, uid, group, a) ==>
          && a.job.name in jobs && IsAttempt(jobs, uid, group, Attempt(a.number, jobs[a.job.name]))
          && (Finished(jobs[a.job.name].status) ==> jobs[a.job.name] == a.job))
    && (forall uid, group, a :: IsAttempt(jobs, uid, group, a) ==>
          && a.job.name in next && next[a.job.name].name == a.job.name
          && IsAttempt(next, uid, group, Attempt(a.number, next[a.job.name]))
          && (Finished(a.job.status) ==> next[a.job.name] == a.job))
  }

  lemma SameAttemptsKeepListing(w: World, jobs: map<string, Job>, next: map<string, Job>, fe: Fe, latest: Option<Attempt>)
    requires SameAttempts(jobs, next) && ListingHolds(w, jobs, fe, latest)
    ensures ListingHolds(w, next, fe, latest)
  {
    hide IsAttempt, Finished, HashLabelValue, ArtifactKey;
    var group := HashLabelValue(ArtifactKey(w, fe));
    if latest.Some? {
      assert IsAttempt(jobs, fe.uid, group, Attempt(latest.value.number, jobs[latest.value.job.name]));
    }
    if Used(jobs, fe.uid, group, NumberOf(latest) + 1) {
      var a :| IsAttempt(jobs, fe.uid, group, a) && a.number == NumberOf(latest) + 1;
      assert IsAttempt(next, fe.uid, group, Attempt(a.number, next[a.job.name]));
    } else {
      forall a | IsAttempt(next, fe.uid, group, a) ensures a.number <= NumberOf(latest) {
        assert IsAttempt(jobs, fe.uid, group, Attempt(a.number, jobs[a.job.name]));
      }
    }
  }

  lemma SameAttemptsStep(w: World, s: State, next: map<string, Job>)
    requires AttemptsOk(w, s) && SameAttempts(s.jobs, next) && NamedJobs(w, next)
    requires forall name :: name in next && name in s.jobs ==> next[name].name == s.jobs[name].name
    ensures AttemptsOk(w, s.(jobs := next))
  {
    hide IsAttempt, Finished, NamedJobs, ListingHolds;
    forall uid, group, a, b | IsAttempt(next, uid, group, a) && IsAttempt(next, uid, group, b) && a.number < b.number ensures Finished(a.job.status) {
      assert IsAttempt(s.jobs, uid, group, Attempt(a.number, s.jobs[a.job.name]));
      assert IsAttempt(s.jobs, uid, group, Attempt(b.number, s.jobs[b.job.name]));
    }
    forall pid | pid in s.procs ensures WindowOk(w, next, s.procs[pid]) {
      var proc := s.procs[pid];
      assert WindowOk(w, s.jobs, proc);
      if InWindow(proc) { SameAttemptsKeepListing(w, s.jobs, next, proc.fe, proc.latest); }
    }
  }

  /** A publish or unpublish Job is no attempt. */
  lemma OtherJobStep(w: World, s: State, name: string, task: JobTask, input: Input)
    requires AttemptsOk(w, s) && name !in s.jobs && !task.PackageTask?
    ensures AttemptsOk(w, WithJob(w, s, name, task, input))
  {
    hide PackageAttemptFromName, PackageJobName, HashLabelValue, OnlyHighestUnfinished, WindowOk, Finished;
    var next := WithJob(w, s, name, task, input).jobs;
    assert SameAttempts(s.jobs, next);
    SameAttemptsStep(w, s, next);
  }

  lemma ProgressStep(w: World, s: State, name: string, status: Option<JobStatus>)
    requires AttemptsOk(w, s) && name in s.jobs && !Finished(s.jobs[name].status)
    ensures AttemptsOk(w, s.(jobs := s.jobs[name := s.jobs[name].(status := status)]))
  {
    hide PackageAttemptFromName, PackageJobName, HashLabelValue, OnlyHighestUnfinished, WindowOk, Finished;
    var next := s.jobs[name := s.jobs[name].(status := status)];
    assert NamedJob(w, name, s.jobs[name]);
    assert SameAttempts(s.jobs, next);
    SameAttemptsStep(w, s, next);
  }

  lemma CollectStep(w: World, s: State, name: string)
    requires AttemptsOk(w, s) && CollectsSafely(s, RemoveJob(name))
    ensures AttemptsOk(w, s.(jobs := s.jobs - {name}))
  {
    hide PackageAttemptFromName, PackageJobName, HashLabelValue, Finished;
    var next := s.jobs - {name};
    if name in s.jobs && s.jobs[name].task.PackageTask? {
      forall uid, group, a | IsAttempt(next, uid, group, a) ensures IsAttempt(s.jobs, uid, group, a) {}
    } else {
      hide OnlyHighestUnfinished, WindowOk;
      assert SameAttempts(s.jobs, next);
      SameAttemptsStep(w, s, next);
    }
  }

  // ----- Steps of programs -----

  lemma ListStep(w: World, jobs: map<string, Job>, fe: Fe, latest: Option<Attempt>)
    requires IsLatest(jobs, fe.uid, HashLabelValue(ArtifactKey(w, fe)), latest)
    ensures ListingHolds(w, jobs, fe, latest)
  {
    hide PackageAttemptFromName, HashLabelValue, ArtifactKey, Finished;
  }

  /** Decisions that create an attempt create the one after a finished latest attempt, within the limit. */
  lemma CreatesNext(w: World, fe: Fe, latest: Option<Attempt>, cm: Option<ConfigMap>)
    requires w.maxAttempts <= MAX_U32
    ensures var d := Decide(w, fe, latest, cm);
      && (d.CreateAttempt? ==> d.number == NumberOf(latest) + 1 <= w.maxAttempts && (latest.Some? ==> Finished(latest.value.job.status)))
      && (d.CheckAgain? ==> latest == Some(d.attempt) && Finished(d.attempt.job.status))
    ensures latest.Some? ==>
      var d := DecideAgain(w, fe, latest.value, cm);
      d.CreateAttempt? ==> d.number == NumberOf(latest) + 1 <= w.maxAttempts
  {
    hide ArtifactIn, PackageJobOf, JobMessage, ArtifactKey, HashLabelValue, HasTrueCondition;
  }

  lemma DecidingStep(w: World, s: State, proc: Proc, input: Input)
    requires w.maxAttempts <= MAX_U32 && AttemptsOk(w, s) && WindowOk(w, s.jobs, proc) && InputFits(w, s, proc, input)
    requires proc.Starting? || proc.Listed? || proc.Rechecking? || proc.CreatingPackage? || proc.FetchingPackage?
    ensures var o := RunDeciding(w, s, proc, input);
      AttemptsOk(w, o.state) && (o.next.Some? ==> WindowOk(w, o.state.jobs, o.next.value))
  {
    hide AttemptsOk, ListingHolds, Decide, DecideAgain, IsLatest, PackageJobName, ArtifactKey, Finished, PackagingStatus, FailedStatus, ArtifactName, PackageTaskOf;
    match proc
    case Starting(fe) => ListStep(w, s.jobs, fe, input.latest);
    case Listed(fe, latest) => CreatesNext(w, fe, latest, ConfigMapIn(s, ArtifactName(w, fe)));
    case Rechecking(fe, latest, attempt) => CreatesNext(w, fe, latest, ConfigMapIn(s, ArtifactName(w, fe)));
    case CreatingPackage(fe, latest, number) =>
      if PackageJobName(w.feName, ArtifactKey(w, fe), number) !in s.jobs { CreateStep(w, s, fe, latest, input); }
    case _ =>
  }

  lemma SyncingStep(w: World, s: State, proc: Proc, input: Input)
    requires AttemptsOk(w, s)
    requires proc.Publishing? || proc.CreatingPublish? || proc.FetchingPublish? || proc.Unpublishing? || proc.CreatingUnpublish? || proc.FetchingUnpublish?
    ensures var o := RunSyncing(w, s, proc, input);
      AttemptsOk(w, o.state) && (o.next.Some? ==> !InWindow(o.next.value))
  {
    hide AttemptsOk, ResolvePublish, ResolveUnpublish, PublishName, UnpublishName, ReadyStatus, ApplyPublishSync, ApplyUnpublishSync, ShouldDelete;
    hide PublishStatusOf, UnpublishStatusOf, RetainedPublish, PublishAlreadyFinished, UnpublishAlreadyFinished, WithJob;
    match proc
    case CreatingPublish(fe, _, cm, _, request) =>
      if PublishName(w, request.requestId) !in s.jobs { OtherJobStep(w, s, PublishName(w, request.requestId), PublishTaskOf(fe, request, cm), input); }
    case CreatingUnpublish(fe, _, request) =>
      if UnpublishName(w, request.requestId) !in s.jobs { OtherJobStep(w, s, UnpublishName(w, request.requestId), UnpublishTaskOf(request), input); }
    case _ =>
  }

  lemma NotInWindow(w: World, s: State, proc: Proc, input: Input)
    requires IsWriting(proc) || !IsReconcile(proc)
    ensures var o := RunProc(w, s, proc, input); o.next.Some? ==> !InWindow(o.next.value)
  {
    hide RunDeciding, RunSyncing, Observes, MergeStatus, LabelsDue, PatchLabels, ReadyArtifact, SourceHash, BuiltConfigMap;
  }

  lemma OtherStep(w: World, s: State, proc: Proc, input: Input)
    requires AttemptsOk(w, s) && (IsWriting(proc) || !IsReconcile(proc))
    ensures var o := RunProc(w, s, proc, input);
      AttemptsOk(w, o.state) && (o.next.Some? ==> !InWindow(o.next.value))
  {
    hide RunProc, NamedJobs, OnlyHighestUnfinished, WindowOk, IsWriting, IsReconcile, InWindow;
    NotInWindow(w, s, proc, input);
    OtherKeeps(w, s, proc, input);
  }

  lemma OtherKeeps(w: World, s: State, proc: Proc, input: Input)
    requires IsWriting(proc) || !IsReconcile(proc)
    ensures RunProc(w, s, proc, input).state.jobs == s.jobs && RunProc(w, s, proc, input).state.procs == s.procs
  {
    hide RunDeciding, RunSyncing, RunWriting, RunPackager, RunPublisher, RunDownload;
    if IsWriting(proc) { WritingKeeps(w, s, proc); } else { PodsKeep(w, s, proc, input); }
  }

  lemma ProgramStep(w: World, s: State, proc: Proc, input: Input)
    requires w.maxAttempts <= MAX_U32 && AttemptsOk(w, s) && WindowOk(w, s.jobs, proc) && InputFits(w, s, proc, input)
    ensures var o := RunProc(w, s, proc, input);
      && AttemptsOk(w, o.state) && o.state.procs == s.procs
      && (o.next.Some? ==> WindowOk(w, o.state.jobs, o.next.value))
  {
    hide AttemptsOk, ListingHolds, InputFits, RunDeciding, RunSyncing, RunWriting, RunPackager, RunPublisher, RunDownload;
    RunKeepsProcs(w, s, proc, input);
    if proc.Starting? || proc.Listed? || proc.Rechecking? || proc.CreatingPackage? || proc.FetchingPackage? { DecidingStep(w, s, proc, input); }
    else if IsWriting(proc) || !IsReconcile(proc) { OtherStep(w, s, proc, input); }
    else { SyncingStep(w, s, proc, input); }
  }

  // ----- Every step, every run -----

  lemma AttemptsStep(w: World, s: State, s': State, action: Action)
    requires w.maxAttempts <= MAX_U32 && AttemptsOk(w, s) && Next(w, s, s', action) && CollectsSafely(s, action)
    ensures AttemptsOk(w, s')
  {
    hide RunProc, InputFits, IsEdit, NamedJobs, OnlyHighestUnfinished, ListingHolds, Finished, CollectsSafely;
    match action
    case ProgressJob(name, status) => ProgressStep(w, s, name, status);
    case RemoveJob(name) => CollectStep(w, s, name);
    case Run(pid, input) => ProgramStep(w, s, s.procs[pid], input);
    case _ =>
  }

  ghost predicate CollectingRun(w: World, states: seq<State>, actions: seq<Action>) {
    IsRun(w, states, actions) && forall i :: 0 <= i < |actions| ==> CollectsSafely(states[i], actions[i])
  }

  lemma {:induction false} AlwaysAttemptsOk(w: World, states: seq<State>, actions: seq<Action>, i: nat)
    requires w.maxAttempts <= MAX_U32 && CollectingRun(w, states, actions) && i < |states|
    ensures AttemptsOk(w, states[i])
  {
    hide Next, AttemptsOk, Init, CollectsSafely;
    if i == 0 {
      InitAttempts(w, states[0]);
    } else {
      AlwaysAttemptsOk(w, states, actions, i - 1);
      RunNext(w, states, actions, i - 1);
      AttemptsStep(w, states[i - 1], states[i], actions[i - 1]);
    }
  }

  lemma InitAttempts(w: World, s: State)
    requires Init(s)
    ensures AttemptsOk(w, s)
  {
  }

  /** The main result: attempts are numbered within the limit, are distinct, and an unfinished one is the highest. */
  lemma AttemptsAreOrderly(w: World, states: seq<State>, actions: seq<Action>, i: nat, uid: string, key: string, a: Attempt, b: Attempt)
    requires w.maxAttempts <= MAX_U32 && CollectingRun(w, states, actions) && i < |states|
    requires IsAttempt(states[i].jobs, uid, HashLabelValue(key), a) && IsAttempt(states[i].jobs, uid, HashLabelValue(key), b)
    ensures 1 <= a.number <= w.maxAttempts
    ensures a.number == b.number ==> a == b
    ensures !Finished(a.job.status) ==> b.number <= a.number
  {
    hide CollectingRun, IsAttempt, NamedJobs, Finished, HashLabelValue, WindowOk;
    AlwaysAttemptsOk(w, states, actions, i);
    AttemptName(w, states[i].jobs, uid, key, a);
    if a.number == b.number { AttemptsDistinct(w, states[i].jobs, uid, key, a, b); }
  }

  // ----- Progress -----

  ghost function Started(w: World, jobs: map<string, Job>, uid: string, group: string): set<nat> {
    set n: nat | 1 <= n <= w.maxAttempts && Used(jobs, uid, group, n)
  }

  ghost predicate UsedUp(jobs: map<string, Job>, uid: string, group: string, n: nat) {
    exists a :: IsAttempt(jobs, uid, group, a) && a.number == n && Finished(a.job.status)
  }

  ghost function Ended(w: World, jobs: map<string, Job>, uid: string, group: string): set<nat> {
    set n: nat | 1 <= n <= w.maxAttempts && UsedUp(jobs, uid, group, n)
  }

  /** How many creations and completions of attempts are still possible. */
  ghost function Remaining(w: World, jobs: map<string, Job>, uid: string, group: string): int {
    2 * w.maxAttempts - |Started(w, jobs, uid, group)| - |Ended(w, jobs, uid, group)|
  }

  lemma {:induction false} CountUpTo(n: nat, s: set<nat>)
    requires forall x :: x in s ==> 1 <= x <= n
    ensures |s| <= n
  {
    if n > 0 {
      CountUpTo(n - 1, s - {n});
      assert |s| <= |s - {n}| + 1 by { assert s <= (s - {n}) + {n}; SubsetCount(s, (s - {n}) + {n}); }
    } else {
      assert s == {};
    }
  }

  lemma {:induction false} SubsetCount(a: set<nat>, b: set<nat>)
    requires a <= b
    ensures |a| <= |b|
    ensures a != b ==> |a| < |b|
  {
    if a != {} {
      var x :| x in a;
      SubsetCount(a - {x}, b - {x});
    }
  }

  lemma RemainingIsNatural(w: World, jobs: map<string, Job>, uid: string, group: string)
    ensures Remaining(w, jobs, uid, group) >= 0
  {
    CountUpTo(w.maxAttempts, Started(w, jobs, uid, group));
    CountUpTo(w.maxAttempts, Ended(w, jobs, uid, group));
  }

  /** No step but a removal takes an attempt or a completion back. */
  ghost predicate KeepsAttempts(jobs: map<string, Job>, next: map<string, Job>) {
    forall name :: name in jobs ==>
      && name in next && next[name] == jobs[name].(status := next[name].status)
      && (Finished(jobs[name].status) ==> next[name] == jobs[name])
  }

  lemma StepKeepsAttempts(w: World, s: State, s': State, action: Action)
    requires Next(w, s, s', action) && !action.RemoveJob?
    ensures KeepsAttempts(s.jobs, s'.jobs)
  {
    hide InputFits, IsEdit, Finished, RunProc;
    match action
    case Run(pid, input) => RunKeepsJobs(w, s, s.procs[pid], input);
    case _ =>
  }

  lemma RemainingShrinks(w: World, jobs: map<string, Job>, next: map<string, Job>, uid: string, group: string)
    requires KeepsAttempts(jobs, next)
    ensures Started(w, jobs, uid, group) <= Started(w, next, uid, group)
    ensures Ended(w, jobs, uid, group) <= Ended(w, next, uid, group)
  {
    hide PackageAttemptFromName, HashLabelValue, Finished;
    forall n | n in Started(w, jobs, uid, group) ensures n in Started(w, next, uid, group) {
      var a :| IsAttempt(jobs, uid, group, a) && a.number == n;
      assert IsAttempt(next, uid, group, Attempt(n, next[a.job.name]));
    }
    forall n | n in Ended(w, jobs, uid, group) ensures n in Ended(w, next, uid, group) {
      var a :| IsAttempt(jobs, uid, group, a) && a.number == n && Finished(a.job.status);
      assert IsAttempt(next, uid, group, a);
    }
  }

  /**
   Without removals, every step leaves fewer attempts to create or finish or the
   same: fewer when it creates or finishes one, so in all at most twice the limit.
   */
  lemma AttemptsProgress(w: World, s: State, s': State, action: Action, uid: string, group: string)
    requires Next(w, s, s', action) && !action.RemoveJob?
    ensures 0 <= Remaining(w, s'.jobs, uid, group) <= Remaining(w, s.jobs, uid, group) <= 2 * w.maxAttempts
    ensures Started(w, s'.jobs, uid, group) != Started(w, s.jobs, uid, group) || Ended(w, s'.jobs, uid, group) != Ended(w, s.jobs, uid, group)
      ==> Remaining(w, s'.jobs, uid, group) < Remaining(w, s.jobs, uid, group)
  {
    hide Next, Started, Ended;
    StepKeepsAttempts(w, s, s', action);
    RemainingShrinks(w, s.jobs, s'.jobs, uid, group);
    SubsetCount(Started(w, s.jobs, uid, group), Started(w, s'.jobs, uid, group));
    SubsetCount(Ended(w, s.jobs, uid, group), Ended(w, s'.jobs, uid, group));
    RemainingIsNatural(w, s'.jobs, uid, group);
  }

  /** A finished attempt at the limit is the last word, short of a valid artifact. */
  lemma LimitDecides(w: World, c: Cluster, fe: Fe, latest: Attempt)
    requires latest.number >= w.maxAttempts && Finished(latest.job.status)
    ensures var d := FinalDecision(w, c, fe, Some(latest)); d.WriteInvalid? || d.SyncAndReady? || d.WriteExceeded?
  {
    hide HashLabelValue, ArtifactKey, ArtifactIn, PackageJobOf, JobMessage, ArtifactName, HasTrueCondition;
  }

  /** Once nothing remains, a reconcile that lists the Jobs neither waits nor creates: it writes Ready or Failed. */
  lemma ExhaustedDecides(w: World, c: Cluster, fe: Fe, latest: Option<Attempt>)
    requires 1 <= w.maxAttempts <= MAX_U32
    requires IsLatest(c.jobs, fe.uid, HashLabelValue(ArtifactKey(w, fe)), latest)
    requires Remaining(w, c.jobs, fe.uid, HashLabelValue(ArtifactKey(w, fe))) == 0 && NamedJobs(w, c.jobs)
    ensures var d := FinalDecision(w, c, fe, latest); d.WriteInvalid? || d.SyncAndReady? || d.WriteExceeded?
  {
    hide IsAttempt, FinalDecision, HashLabelValue, ArtifactKey, Remaining, NamedJobs, Finished;
    var group := HashLabelValue(ArtifactKey(w, fe));
    LastEnded(w, c.jobs, fe.uid, group);
    var a :| IsAttempt(c.jobs, fe.uid, group, a) && a.number == w.maxAttempts && Finished(a.job.status);
    assert NotAfter(a, latest.value);
    AttemptName(w, c.jobs, fe.uid, ArtifactKey(w, fe), latest.value);
    AttemptsDistinct(w, c.jobs, fe.uid, ArtifactKey(w, fe), a, latest.value);
    LimitDecides(w, c, fe, latest.value);
  }

  lemma LastEnded(w: World, jobs: map<string, Job>, uid: string, group: string)
    requires w.maxAttempts >= 1 && Remaining(w, jobs, uid, group) == 0
    ensures UsedUp(jobs, uid, group, w.maxAttempts)
  {
    hide IsAttempt, Finished;
    CountUpTo(w.maxAttempts, Started(w, jobs, uid, group));
    CountUpTo(w.maxAttempts, Ended(w, jobs, uid, group));
    if w.maxAttempts !in Ended(w, jobs, uid, group) {
      CountUpTo(w.maxAttempts - 1, Ended(w, jobs, uid, group));
    }
  }
}
