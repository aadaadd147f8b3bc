/**
 The migrator's steps interleaved with everything else: several migrators, each of
 which may stop at any step and be started again, finalizers that delay deletion,
 the controller that writes status and labels, and users of other extensions.
 */
module MigratorRuns {
  import opened Prelude
  import opened Names
  import opened FiToFe
  import opened FeTypes
  import opened MergePatch
  import opened Migrator

  /** Where the migration of one integration has got to. */
  datatype Phase =
    | GettingFe
    | CreatingFe
    | PatchingFe
    | WritingIntent(spec: Doc, generation: nat)
    | DeletingFi
    | WaitingForFi

  /** A migrator: about to list, working on one integration with others queued, or done. */
  datatype Proc =
    | Listing
    | Looping(queue: seq<Fi>, failures: seq<string>)
    | Migrating(fi: Fi, phase: Phase, queue: seq<Fi>, failures: seq<string>)

  datatype State = State(fis: map<string, StoredFi>, fes: map<string, StoredFe>, procs: map<nat, Proc>)

  /** What a step draws from outside: the order of a listing, whether a finalizer delays a deletion, whether time is up. */
  datatype Input = Input(listing: seq<Fi>, finalizers: bool, timedOut: bool, rest: Doc)

  datatype Action =
    | Start(pid: nat)
    | Step(pid: nat, input: Input)
    | Crash(pid: nat)
    | FinishDeletion(name: string)
    | WriteStatus(name: string, fe: StoredFe)
    | UserCreates(name: string, fe: StoredFe)
    | UserEdits(name: string, fe: StoredFe)

  // ----- A migrator's steps -----

  function Go(s: State, pid: nat, proc: Proc): State {
    s.(procs := s.procs[pid := proc])
  }

  function Fail(s: State, pid: nat, proc: Proc): State
    requires proc.Migrating?
  {
    Go(s, pid, Looping(proc.queue, proc.failures + [proc.fi.name]))
  }

  function AfterUpsert(env: Env, proc: Proc, fe: StoredFe): Proc
    requires proc.Migrating?
  {
    proc.(phase := if Enabled(proc.fi) then WritingIntent(fe.spec, fe.generation) else DeletingFi)
  }

  function MigrateStep(env: Env, s: State, pid: nat, proc: Proc, input: Input): State
    requires proc.Migrating?
  {
    var fi, name := proc.fi, MigratedFeName(env, proc.fi.name);
    match proc.phase
    case GettingFe =>
      if name !in s.fes then Go(s, pid, proc.(phase := CreatingFe))
      else if OwnedBy(s.fes[name], fi.name) then Go(s, pid, proc.(phase := PatchingFe))
      else Fail(s, pid, proc)
    case CreatingFe =>
      if name in s.fes then Fail(s, pid, proc)
      else
        var fe := Created(env, fi, input.rest);
        Go(s.(fes := s.fes[name := fe]), pid, AfterUpsert(env, proc, fe))
    case PatchingFe =>
      if name !in s.fes then Fail(s, pid, proc)
      else
        var fe := Upserted(env, s.fes[name], fi);
        Go(s.(fes := s.fes[name := fe]), pid, AfterUpsert(env, proc, fe))
    case WritingIntent(spec, generation) =>
      if name !in s.fes then Fail(s, pid, proc)
      else Go(s.(fes := s.fes[name := WithIntent(env, name, s.fes[name], spec, generation)]), pid, proc.(phase := DeletingFi))
    case DeletingFi =>
      var fis :=
        if fi.name !in s.fis then s.fis
        else if input.finalizers then s.fis[fi.name := s.fis[fi.name].(deleting := true)]
        else s.fis - {fi.name};
      Go(s.(fis := fis), pid, proc.(phase := WaitingForFi))
    case WaitingForFi =>
      if fi.name !in s.fis then Go(s, pid, Looping(proc.queue, proc.failures))
      else if input.timedOut then Fail(s, pid, proc)
      else s
  }

  ghost predicate ListsAll(s: State, listing: seq<Fi>) {
    && (forall fi :: fi in listing ==> fi.name in s.fis && s.fis[fi.name].fi == fi)
    && (forall n :: n in s.fis ==> s.fis[n].fi in listing)
  }

  ghost predicate MigratorStep(env: Env, s: State, s': State, pid: nat, input: Input) {
    pid in s.procs &&
    match s.procs[pid]
    case Listing => ListsAll(s, input.listing) && s' == Go(s, pid, Looping(input.listing, []))
    case Looping(queue, failures) =>
      s' == if queue == [] then s.(procs := s.procs - {pid}) else Go(s, pid, Migrating(queue[0], GettingFe, queue[1..], failures))
    case Migrating(_, _, _, _) => s' == MigrateStep(env, s, pid, s.procs[pid], input)
  }

  // ----- All steps -----

  /** An extension that the migrator did not make. */
  predicate Foreign(fe: StoredFe) {
    !(LABEL_FE_MANAGED_BY in fe.labels && fe.labels[LABEL_FE_MANAGED_BY] == MANAGED_BY_VALUE)
  }

  /** The controller's writes: status, and labels other than the migrator's. */
  predicate IsStatusWrite(fe: StoredFe, next: StoredFe) {
    && next == fe.(labels := next.labels, rest := next.rest)
    && (LABEL_FE_MANAGED_BY in next.labels <==> LABEL_FE_MANAGED_BY in fe.labels)
    && (LABEL_FE_MANAGED_BY in fe.labels ==> next.labels[LABEL_FE_MANAGED_BY] == fe.labels[LABEL_FE_MANAGED_BY])
  }

  ghost predicate Next(env: Env, s: State, s': State, action: Action) {
    match action
    case Start(pid) => pid !in s.procs && s' == Go(s, pid, Listing)
    case Step(pid, input) => MigratorStep(env, s, s', pid, input)
    case Crash(pid) => s' == s.(procs := s.procs - {pid})
    case FinishDeletion(name) => name in s.fis && s.fis[name].deleting && s' == s.(fis := s.fis - {name})
    case WriteStatus(name, fe) => name in s.fes && IsStatusWrite(s.fes[name], fe) && s' == s.(fes := s.fes[name := fe])
    case UserCreates(name, fe) => name !in s.fes && Foreign(fe) && s' == s.(fes := s.fes[name := fe])
    case UserEdits(name, fe) => name in s.fes && Foreign(s.fes[name]) && Foreign(fe) && s' == s.(fes := s.fes[name := fe])
  }

  // ----- The invariant -----

  /** The integrations there were before any migrator ran. */
  ghost predicate Originals(env: Env, originals: map<string, Fi>) {
    forall n :: n in originals ==> originals[n].name == n && NoNulls(DesiredSpec(env, originals[n]))
  }

  ghost predicate IsOriginal(originals: map<string, Fi>, fi: Fi) {
    fi.name in originals && originals[fi.name] == fi
  }

  /** What the next step of one migration relies on. */
  ghost predicate PhaseOk(env: Env, fes: map<string, StoredFe>, fi: Fi, phase: Phase) {
    var name := MigratedFeName(env, fi.name);
    match phase
    case GettingFe => true
    case CreatingFe => true
    case PatchingFe => name in fes && OwnedBy(fes[name], fi.name)
    case WritingIntent(spec, generation) =>
      name in fes && OwnedBy(fes[name], fi.name) && Settled(env, fes[name], fi) && fes[name].spec == spec && fes[name].generation == generation
    case DeletingFi => Migrated(env, fes, fi)
    case WaitingForFi => true
  }

  ghost predicate ProcOk(env: Env, originals: map<string, Fi>, fes: map<string, StoredFe>, proc: Proc) {
    match proc
    case Listing => true
    case Looping(queue, _) => forall fi :: fi in queue ==> IsOriginal(originals, fi)
    case Migrating(fi, phase, queue, _) =>
      IsOriginal(originals, fi) && (forall q :: q in queue ==> IsOriginal(originals, q)) && PhaseOk(env, fes, fi, phase)
  }

  /** No original is lost: it is there and not being deleted, or it has been migrated. */
  ghost predicate Kept(env: Env, s: State, fi: Fi) {
    (fi.name in s.fis && s.fis[fi.name].fi == fi && !s.fis[fi.name].deleting) || Migrated(env, s.fes, fi)
  }

  ghost predicate NoneLost(env: Env, originals: map<string, Fi>, s: State) {
    && (forall n :: n in originals ==> originals[n].name == n && Kept(env, s, originals[n]))
    && (forall n :: n in s.fis ==> s.fis[n].fi.name == n && IsOriginal(originals, s.fis[n].fi))
    && (forall pid :: pid in s.procs ==> ProcOk(env, originals, s.fes, s.procs[pid]))
  }

  // ----- Changes of one extension -----

  /**
   Replacing one stored extension is harmless to an integration: if it is that
   integration's extension, ownership, settledness, content and intent survive.
   */
  ghost predicate Harmless(env: Env, name: string, fe: StoredFe, next: StoredFe, fi: Fi) {
    OwnedBy(fe, fi.name) && MigratedFeName(env, fi.name) == name ==>
      && OwnedBy(next, fi.name)
      && (Settled(env, fe, fi) ==>
          && Settled(env, next, fi) && next.spec == fe.spec && next.generation == fe.generation
          && (HasIntent(env, name, fe) ==> HasIntent(env, name, next)))
  }

  lemma HarmlessKeeps(env: Env, s: State, name: string, next: StoredFe, fi: Fi, phase: Phase)
    requires name in s.fes ==> Harmless(env, name, s.fes[name], next, fi)
    ensures Migrated(env, s.fes, fi) ==> Migrated(env, s.fes[name := next], fi)
    ensures PhaseOk(env, s.fes, fi, phase) ==> PhaseOk(env, s.fes[name := next], fi, phase)
  {
    hide MigratedFeName, OwnedBy, Settled, HasIntent;
  }

  /** A harmless write keeps the invariant. */
  lemma WriteKeeps(env: Env, originals: map<string, Fi>, s: State, name: string, next: StoredFe)
    requires NoneLost(env, originals, s)
    requires name in s.fes ==> forall fi :: IsOriginal(originals, fi) ==> Harmless(env, name, s.fes[name], next, fi)
    ensures NoneLost(env, originals, s.(fes := s.fes[name := next]))
  {
    hide Harmless, PhaseOk, Migrated;
    forall n | n in originals ensures Kept(env, s.(fes := s.fes[name := next]), originals[n]) {
      assert Kept(env, s, originals[n]);
      if Migrated(env, s.fes, originals[n]) { HarmlessKeeps(env, s, name, next, originals[n], GettingFe); }
    }
    forall pid | pid in s.procs ensures ProcOk(env, originals, s.fes[name := next], s.procs[pid]) {
      var proc := s.procs[pid];
      assert ProcOk(env, originals, s.fes, proc);
      if proc.Migrating? { HarmlessKeeps(env, s, name, next, proc.fi, proc.phase); }
    }
  }

  lemma UpsertIsHarmless(env: Env, originals: map<string, Fi>, name: string, fe: StoredFe, fi: Fi, other: Fi)
    requires OwnedBy(fe, fi.name) && IsOriginal(originals, fi) && IsOriginal(originals, other)
    ensures Harmless(env, name, fe, Upserted(env, fe, fi), other)
  {
    hide MigratedFeName, Settled, HasIntent, Upserted;
    UpsertedIsSettled(env, fe, fi);
  }

  lemma IntentIsHarmless(env: Env, originals: map<string, Fi>, name: string, fe: StoredFe, other: Fi)
    ensures Harmless(env, name, fe, WithIntent(env, name, fe, fe.spec, fe.generation), other)
  {
    hide MigratedFeName, HasIntent, WithIntent, OwnedBy, DesiredSpec;
    IntentIsKept(env, name, fe, other.name);
  }

  lemma StatusIsHarmless(env: Env, name: string, fe: StoredFe, next: StoredFe, fi: Fi)
    requires IsStatusWrite(fe, next)
    ensures Harmless(env, name, fe, next, fi)
  {
    hide MigratedFeName, DesiredSpec, IntentAnnotations;
  }

  lemma ForeignIsHarmless(env: Env, name: string, fe: StoredFe, next: StoredFe, fi: Fi)
    requires Foreign(fe)
    ensures Harmless(env, name, fe, next, fi)
  {
    hide MigratedFeName, DesiredSpec, HasIntent;
  }

  // ----- Every step -----

  lemma GoKeeps(env: Env, originals: map<string, Fi>, s: State, pid: nat, proc: Proc)
    requires NoneLost(env, originals, s) && ProcOk(env, originals, s.fes, proc)
    ensures NoneLost(env, originals, Go(s, pid, proc))
  {
    hide ProcOk, Migrated, IsOriginal;
    forall n | n in originals ensures Kept(env, Go(s, pid, proc), originals[n]) {
      assert Kept(env, s, originals[n]);
    }
  }

  lemma FailKeeps(env: Env, originals: map<string, Fi>, s: State, pid: nat, proc: Proc)
    requires NoneLost(env, originals, s) && proc.Migrating? && ProcOk(env, originals, s.fes, proc)
    ensures NoneLost(env, originals, Fail(s, pid, proc))
  {
    hide PhaseOk, NoneLost, IsOriginal;
    GoKeeps(env, originals, s, pid, Looping(proc.queue, proc.failures + [proc.fi.name]));
  }

  /** After the upsert the migration goes on to the intent, or straight to the deletion when there is none to write. */
  lemma AfterUpsertOk(env: Env, originals: map<string, Fi>, fes: map<string, StoredFe>, proc: Proc)
    requires proc.Migrating? && ProcOk(env, originals, fes, proc)
    requires var name := MigratedFeName(env, proc.fi.name);
      name in fes && OwnedBy(fes[name], proc.fi.name) && Settled(env, fes[name], proc.fi)
    ensures ProcOk(env, originals, fes, AfterUpsert(env, proc, fes[MigratedFeName(env, proc.fi.name)]))
  {
    hide MigratedFeName, OwnedBy, Settled, HasIntent, IsOriginal;
  }

  lemma CreateStep(env: Env, originals: map<string, Fi>, s: State, pid: nat, proc: Proc, input: Input)
    requires Originals(env, originals) && NoneLost(env, originals, s)
    requires proc.Migrating? && proc.phase.CreatingFe? && ProcOk(env, originals, s.fes, proc)
    ensures NoneLost(env, originals, MigrateStep(env, s, pid, proc, input))
  {
    hide NoneLost, MigratedFeName, Created, OwnedBy, Settled, DesiredSpec;
    var name := MigratedFeName(env, proc.fi.name);
    if name in s.fes {
      FailKeeps(env, originals, s, pid, proc);
    } else {
      var fe := Created(env, proc.fi, input.rest);
      assert NoNulls(DesiredSpec(env, originals[proc.fi.name]));
      CreatedIsSettled(env, proc.fi, input.rest);
      WriteKeeps(env, originals, s, name, fe);
      AfterUpsertOk(env, originals, s.fes[name := fe], proc);
      GoKeeps(env, originals, s.(fes := s.fes[name := fe]), pid, AfterUpsert(env, proc, fe));
    }
  }

  lemma PatchStep(env: Env, originals: map<string, Fi>, s: State, pid: nat, proc: Proc, input: Input)
    requires NoneLost(env, originals, s) && proc.Migrating? && proc.phase.PatchingFe? && ProcOk(env, originals, s.fes, proc)
    ensures NoneLost(env, originals, MigrateStep(env, s, pid, proc, input))
  {
    hide NoneLost, MigratedFeName, Upserted, OwnedBy, Settled, Harmless, IsOriginal;
    var name := MigratedFeName(env, proc.fi.name);
    var fe := Upserted(env, s.fes[name], proc.fi);
    forall other | IsOriginal(originals, other) ensures Harmless(env, name, s.fes[name], fe, other) {
      UpsertIsHarmless(env, originals, name, s.fes[name], proc.fi, other);
    }
    UpsertedIsSettled(env, s.fes[name], proc.fi);
    WriteKeeps(env, originals, s, name, fe);
    PhaseStays(env, originals, s, name, fe, proc);
    AfterUpsertOk(env, originals, s.fes[name := fe], proc);
    GoKeeps(env, originals, s.(fes := s.fes[name := fe]), pid, AfterUpsert(env, proc, fe));
  }

  lemma PhaseStays(env: Env, originals: map<string, Fi>, s: State, name: string, fe: StoredFe, proc: Proc)
    requires ProcOk(env, originals, s.fes, proc) && proc.Migrating? && proc.phase.PatchingFe?
    requires name == MigratedFeName(env, proc.fi.name) && OwnedBy(fe, proc.fi.name)
    ensures ProcOk(env, originals, s.fes[name := fe], proc)
  {
    hide MigratedFeName, OwnedBy, IsOriginal;
  }

  lemma IntentStep(env: Env, originals: map<string, Fi>, s: State, pid: nat, proc: Proc, input: Input)
    requires NoneLost(env, originals, s) && proc.Migrating? && proc.phase.WritingIntent? && ProcOk(env, originals, s.fes, proc)
    ensures NoneLost(env, originals, MigrateStep(env, s, pid, proc, input))
  {
    hide NoneLost, MigratedFeName, WithIntent, OwnedBy, Settled, HasIntent, Harmless, IsOriginal;
    var name := MigratedFeName(env, proc.fi.name);
    var fe := WithIntent(env, name, s.fes[name], proc.phase.spec, proc.phase.generation);
    forall other | IsOriginal(originals, other) ensures Harmless(env, name, s.fes[name], fe, other) {
      IntentIsHarmless(env, originals, name, s.fes[name], other);
    }
    IntentIsKept(env, name, s.fes[name], proc.fi.name);
    SettledBySpec(env, s.fes[name], fe, proc.fi);
    WriteKeeps(env, originals, s, name, fe);
    assert Migrated(env, s.fes[name := fe], proc.fi);
    GoKeeps(env, originals, s.(fes := s.fes[name := fe]), pid, proc.(phase := DeletingFi));
  }

  lemma DeleteStep(env: Env, originals: map<string, Fi>, s: State, pid: nat, proc: Proc, input: Input)
    requires Originals(env, originals) && NoneLost(env, originals, s) && proc.Migrating? && proc.phase.DeletingFi? && ProcOk(env, originals, s.fes, proc)
    ensures NoneLost(env, originals, MigrateStep(env, s, pid, proc, input))
  {
    hide MigratedFeName, Migrated, NoNulls, DesiredSpec;
    var s' := MigrateStep(env, s, pid, proc, input);
    forall n | n in originals ensures Kept(env, s', originals[n]) {
      assert Kept(env, s, originals[n]);
    }
    forall p | p in s'.procs ensures ProcOk(env, originals, s'.fes, s'.procs[p]) {
      assert p != pid ==> ProcOk(env, originals, s.fes, s.procs[p]);
    }
  }

  lemma MigrateKeeps(env: Env, originals: map<string, Fi>, s: State, pid: nat, proc: Proc, input: Input)
    requires Originals(env, originals) && NoneLost(env, originals, s) && proc.Migrating? && ProcOk(env, originals, s.fes, proc)
    requires proc.phase.WaitingForFi? ==> pid in s.procs
    ensures NoneLost(env, originals, MigrateStep(env, s, pid, proc, input))
  {
    hide NoneLost, MigratedFeName, IsOriginal;
    match proc.phase
    case GettingFe =>
      FailKeeps(env, originals, s, pid, proc);
      GoKeeps(env, originals, s, pid, proc.(phase := CreatingFe));
      var name := MigratedFeName(env, proc.fi.name);
      if name in s.fes && OwnedBy(s.fes[name], proc.fi.name) { GoKeeps(env, originals, s, pid, proc.(phase := PatchingFe)); }
    case CreatingFe => CreateStep(env, originals, s, pid, proc, input);
    case PatchingFe => PatchStep(env, originals, s, pid, proc, input);
    case WritingIntent(_, _) => IntentStep(env, originals, s, pid, proc, input);
    case DeletingFi => DeleteStep(env, originals, s, pid, proc, input);
    case WaitingForFi =>
      FailKeeps(env, originals, s, pid, proc);
      GoKeeps(env, originals, s, pid, Looping(proc.queue, proc.failures));
  }

  lemma MigratorKeeps(env: Env, originals: map<string, Fi>, s: State, s': State, pid: nat, input: Input)
    requires Originals(env, originals) && NoneLost(env, originals, s) && MigratorStep(env, s, s', pid, input)
    ensures NoneLost(env, originals, s')
  {
    hide PhaseOk, MigrateStep, Kept, Originals;
    var proc := s.procs[pid];
    assert ProcOk(env, originals, s.fes, proc);
    match proc
    case Listing =>
      forall fi | fi in input.listing ensures IsOriginal(originals, fi) { assert fi.name in s.fis; }
      GoKeeps(env, originals, s, pid, Looping(input.listing, []));
    case Looping(queue, failures) =>
      if queue == [] {
        CrashKeeps(env, originals, s, pid);
      } else {
        assert queue[0] in queue && PhaseOk(env, s.fes, queue[0], GettingFe) by { StartIsOk(env, s.fes, queue[0]); }
        GoKeeps(env, originals, s, pid, Migrating(queue[0], GettingFe, queue[1..], failures));
      }
    case Migrating(_, _, _, _) => MigrateKeeps(env, originals, s, pid, proc, input);
  }

  lemma StartIsOk(env: Env, fes: map<string, StoredFe>, fi: Fi)
    ensures PhaseOk(env, fes, fi, GettingFe)
  {
  }

  lemma CrashKeeps(env: Env, originals: map<string, Fi>, s: State, pid: nat)
    requires NoneLost(env, originals, s)
    ensures NoneLost(env, originals, s.(procs := s.procs - {pid}))
  {
    hide ProcOk, Migrated, IsOriginal;
    forall n | n in originals ensures Kept(env, s.(procs := s.procs - {pid}), originals[n]) {
      assert Kept(env, s, originals[n]);
    }
  }

  lemma FinishKeeps(env: Env, originals: map<string, Fi>, s: State, name: string)
    requires Originals(env, originals) && NoneLost(env, originals, s) && name in s.fis && s.fis[name].deleting
    ensures NoneLost(env, originals, s.(fis := s.fis - {name}))
  {
    hide ProcOk, Migrated, NoNulls, DesiredSpec;
    forall n | n in originals ensures Kept(env, s.(fis := s.fis - {name}), originals[n]) {
      assert Kept(env, s, originals[n]);
    }
  }

  lemma StepKeeps(env: Env, originals: map<string, Fi>, s: State, s': State, action: Action)
    requires Originals(env, originals) && NoneLost(env, originals, s) && Next(env, s, s', action)
    ensures NoneLost(env, originals, s')
  {
    hide NoneLost, Originals, MigratorStep, Harmless, Foreign, IsStatusWrite, IsOriginal;
    match action
    case Start(pid) => GoKeeps(env, originals, s, pid, Listing);
    case Step(pid, input) => MigratorKeeps(env, originals, s, s', pid, input);
    case Crash(pid) => CrashKeeps(env, originals, s, pid);
    case FinishDeletion(name) => FinishKeeps(env, originals, s, name);
    case WriteStatus(name, fe) =>
      forall fi ensures Harmless(env, name, s.fes[name], fe, fi) { StatusIsHarmless(env, name, s.fes[name], fe, fi); }
      WriteKeeps(env, originals, s, name, fe);
    case UserCreates(name, fe) => WriteKeeps(env, originals, s, name, fe);
    case UserEdits(name, fe) =>
      forall fi ensures Harmless(env, name, s.fes[name], fe, fi) { ForeignIsHarmless(env, name, s.fes[name], fe, fi); }
      WriteKeeps(env, originals, s, name, fe);
  }

  // ----- Main results -----

  /** A run from a cluster with these integrations, no migrator yet, and any extensions. */
  ghost predicate IsRun(env: Env, originals: map<string, Fi>, states: seq<State>, actions: seq<Action>) {
    && Originals(env, originals) && |states| == |actions| + 1
    && states[0].procs == map[] && states[0].fis == (map n | n in originals :: StoredFi(originals[n], false))
    && forall i :: 0 <= i < |actions| ==> Next(env, states[i], states[i + 1], actions[i])
  }

  lemma {:induction false} AlwaysNoneLost(env: Env, originals: map<string, Fi>, states: seq<State>, actions: seq<Action>, i: nat)
    requires IsRun(env, originals, states, actions) && i < |states|
    ensures NoneLost(env, originals, states[i])
  {
    hide Next, Migrated, NoNulls, DesiredSpec;
    if i > 0 {
      AlwaysNoneLost(env, originals, states, actions, i - 1);
      StepKeeps(env, originals, states[i - 1], states[i], actions[i - 1]);
    }
  }

  /**
   In every state of every run, however often migrators stopped and started, each
   original integration is still there, or an extension made from it is stored, with
   a publish intent for its current source and generation if it was enabled.
   */
  lemma NoIntegrationIsLost(env: Env, originals: map<string, Fi>, states: seq<State>, actions: seq<Action>, i: nat, name: string)
    requires IsRun(env, originals, states, actions) && i < |states| && name in originals
    ensures (name in states[i].fis && states[i].fis[name].fi == originals[name]) || Migrated(env, states[i].fes, originals[name])
  {
    hide IsRun, Migrated, ProcOk, IsOriginal;
    AlwaysNoneLost(env, originals, states, actions, i);
    assert Kept(env, states[i], originals[name]);
    OriginalName(env, originals, states, actions, name);
  }

  lemma OriginalName(env: Env, originals: map<string, Fi>, states: seq<State>, actions: seq<Action>, name: string)
    requires IsRun(env, originals, states, actions) && name in originals
    ensures originals[name].name == name
  {
    hide Next, NoNulls, DesiredSpec;
  }

  /** A migrator's step changes an extension only if it was made from the integration being migrated, or creates it. */
  lemma OthersAreUntouched(env: Env, originals: map<string, Fi>, states: seq<State>, actions: seq<Action>, i: nat, name: string)
    requires IsRun(env, originals, states, actions) && i < |actions| && actions[i].Step? && name in states[i].fes
    ensures name in states[i + 1].fes
    ensures states[i + 1].fes[name] == states[i].fes[name]
      || (states[i].procs[actions[i].pid].Migrating? && OwnedBy(states[i].fes[name], states[i].procs[actions[i].pid].fi.name))
  {
    AlwaysNoneLost(env, originals, states, actions, i);
    RunStep(env, originals, states, actions, i);
    MigratorTouchesItsOwn(env, originals, states[i], states[i + 1], actions[i].pid, actions[i].input, name);
  }

  lemma RunStep(env: Env, originals: map<string, Fi>, states: seq<State>, actions: seq<Action>, i: nat)
    requires IsRun(env, originals, states, actions) && i < |actions| && actions[i].Step?
    ensures MigratorStep(env, states[i], states[i + 1], actions[i].pid, actions[i].input)
  {
    hide MigratorStep, Originals;
  }

  lemma MigratorTouchesItsOwn(env: Env, originals: map<string, Fi>, s: State, s': State, pid: nat, input: Input, name: string)
    requires NoneLost(env, originals, s) && MigratorStep(env, s, s', pid, input) && name in s.fes
    ensures name in s'.fes
    ensures s'.fes[name] == s.fes[name] || (s.procs[pid].Migrating? && OwnedBy(s.fes[name], s.procs[pid].fi.name))
  {
    hide MigratedFeName, OwnedBy, Settled, HasIntent, Kept, IsOriginal, Created, Upserted, WithIntent, ListsAll;
    assert ProcOk(env, originals, s.fes, s.procs[pid]);
  }
}
