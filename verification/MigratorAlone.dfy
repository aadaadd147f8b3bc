/**
 What a migrator makes of one integration when nobody else moves: the very
 extension it leaves, where it stops, and what it reports.
 */
module MigratorAlone {
  import opened Prelude
  import opened CustomResources
  import opened FiToFe
  import opened MergePatch
  import opened Migrator
  import opened MigratorRuns

  /** Up to `fuel` steps of a migrator on the integration it is working on. */
  function Alone(env: Env, s: State, pid: nat, input: Input, fuel: nat): State
    decreases fuel
  {
    if fuel == 0 || pid !in s.procs || !s.procs[pid].Migrating? then s
    else Alone(env, MigrateStep(env, s, pid, s.procs[pid], input), pid, input, fuel - 1)
  }

  lemma AloneStep(env: Env, s: State, pid: nat, input: Input, fuel: nat)
    requires fuel > 0 && pid in s.procs && s.procs[pid].Migrating?
    ensures Alone(env, s, pid, input, fuel) == Alone(env, MigrateStep(env, s, pid, s.procs[pid], input), pid, input, fuel - 1)
  {
    hide MigrateStep;
  }

  // ----- What is to be written -----

  /** What the integration translates to, under its extension's name. */
  ghost function Translated(env: Env, fi: Fi): FrontendExtension {
    FrontendExtensionFromFi(fi, MigratedFeName(env, fi.name), env.cfg)
  }

  /** The migrator made this extension from the integration of that name. */
  ghost predicate MadeFrom(fe: StoredFe, fiName: string) {
    && LABEL_FE_MANAGED_BY in fe.labels && fe.labels[LABEL_FE_MANAGED_BY] == "frontend-forge-fi-migrator"
    && ANNO_SOURCE_FI_NAME in fe.annotations && fe.annotations[ANNO_SOURCE_FI_NAME] == fiName
  }

  /** A new extension of the first generation, or the one there merged with the translation; a changed spec is a new generation. */
  ghost function Merged(env: Env, fi: Fi, before: Option<StoredFe>, rest: Doc): StoredFe {
    var fe := Translated(env, fi);
    var spec := env.specDoc(fe.spec);
    match before
    case None => StoredFe(fe.labels, fe.annotations, spec, 1, rest)
    case Some(b) =>
      var merged := Merge(b.spec, spec);
      StoredFe(b.labels + fe.labels, b.annotations + fe.annotations, merged, b.generation + (if merged != b.spec then 1 else 0), b.rest)
  }

  /** `fe` is that; for an integration that is not switched off, with the intent to publish it, and otherwise the same. */
  ghost predicate Leaves(env: Env, fi: Fi, before: Option<StoredFe>, rest: Doc, fe: StoredFe) {
    var name, merged := MigratedFeName(env, fi.name), Merged(env, fi, before, rest);
    if fi.spec.enabled == Some(false) then fe == merged else OnlyIntentChanged(env, name, merged, fe) && HasIntent(env, name, fe)
  }

  /** The extension's name is taken by something else. */
  ghost predicate Taken(env: Env, s: State, fi: Fi) {
    MigratedFeName(env, fi.name) in s.fes && !MadeFrom(s.fes[MigratedFeName(env, fi.name)], fi.name)
  }

  ghost function Before(env: Env, s: State, fi: Fi): Option<StoredFe> {
    if MigratedFeName(env, fi.name) in s.fes then Some(s.fes[MigratedFeName(env, fi.name)]) else None
  }

  ghost predicate Works(s: State, pid: nat, fi: Fi, phase: Phase, queue: seq<Fi>, failures: seq<string>) {
    pid in s.procs && s.procs[pid] == Migrating(fi, phase, queue, failures)
  }

  // ----- From the first read to the deletion -----

  lemma WritingEnds(env: Env, s: State, pid: nat, fi: Fi, queue: seq<Fi>, failures: seq<string>, spec: Doc, generation: nat, input: Input, fuel: nat)
    returns (fe: StoredFe)
    requires fuel >= 1 && Works(s, pid, fi, WritingIntent(spec, generation), queue, failures)
    requires var name := MigratedFeName(env, fi.name); name in s.fes && s.fes[name].spec == spec && s.fes[name].generation == generation
    ensures var name := MigratedFeName(env, fi.name);
      && OnlyIntentChanged(env, name, s.fes[name], fe) && HasIntent(env, name, fe)
      && Alone(env, s, pid, input, fuel)
         == Alone(env, Go(s.(fes := s.fes[name := fe]), pid, Migrating(fi, DeletingFi, queue, failures)), pid, input, fuel - 1)
  {
    hide Alone, WithIntent, HasIntent, MigratedFeName, OnlyIntentChanged;
    var name := MigratedFeName(env, fi.name);
    AloneStep(env, s, pid, input, fuel);
    IntentIsFor(env, name, s.fes[name], spec, generation);
    fe := WithIntent(env, name, s.fes[name], spec, generation);
  }

  lemma UpsertedIsMerged(env: Env, s: State, fi: Fi, rest: Doc)
    ensures Before(env, s, fi).None? ==> Created(env, fi, rest) == Merged(env, fi, None, rest)
    ensures Before(env, s, fi).Some? ==> Upserted(env, Before(env, s, fi).value, fi) == Merged(env, fi, Before(env, s, fi), rest)
    ensures Taken(env, s, fi) <==> MigratedFeName(env, fi.name) in s.fes && !OwnedBy(s.fes[MigratedFeName(env, fi.name)], fi.name)
    ensures Enabled(fi) <==> fi.spec.enabled != Some(false)
  {
    hide MigratedFeName, FrontendExtensionFromFi, Merge;
  }

  /** Unless the name is taken, the migrator leaves the extension and comes to delete the integration. */
  lemma UpsertEnds(env: Env, s: State, pid: nat, fi: Fi, queue: seq<Fi>, failures: seq<string>, input: Input, fuel: nat)
    returns (fe: StoredFe, left: nat)
    requires fuel >= 3 && Works(s, pid, fi, GettingFe, queue, failures) && !Taken(env, s, fi)
    ensures fuel - 3 <= left && Leaves(env, fi, Before(env, s, fi), input.rest, fe)
    ensures Alone(env, s, pid, input, fuel)
            == Alone(env, Go(s.(fes := s.fes[MigratedFeName(env, fi.name) := fe]), pid, Migrating(fi, DeletingFi, queue, failures)), pid, input, left)
  {
    hide Alone, Created, Upserted, Merged, HasIntent, MigratedFeName, OnlyIntentChanged, OwnedBy, MadeFrom, Enabled;
    var name, before := MigratedFeName(env, fi.name), Before(env, s, fi);
    var merged := Merged(env, fi, before, input.rest);
    UpsertedIsMerged(env, s, fi, input.rest);
    AloneStep(env, s, pid, input, fuel);
    var reading := MigrateStep(env, s, pid, s.procs[pid], input);
    AloneStep(env, reading, pid, input, fuel - 1);
    var written := MigrateStep(env, reading, pid, reading.procs[pid], input);
    assert written.fes == s.fes[name := merged] && written.fis == s.fis;
    if Enabled(fi) {
      fe := WritingEnds(env, written, pid, fi, queue, failures, merged.spec, merged.generation, input, fuel - 2);
      left := fuel - 3;
      assert Go(written.(fes := written.fes[name := fe]), pid, Migrating(fi, DeletingFi, queue, failures))
        == Go(s.(fes := s.fes[name := fe]), pid, Migrating(fi, DeletingFi, queue, failures));
    } else {
      fe, left := merged, fuel - 2;
      assert written == Go(s.(fes := s.fes[name := merged]), pid, Migrating(fi, DeletingFi, queue, failures));
    }
  }

  // ----- Deletion -----

  /** Without finalizers the integration is gone and the migrator goes on with the next; with one it is marked, and waited for until time is up. */
  lemma DeletingEnds(env: Env, s: State, pid: nat, fi: Fi, queue: seq<Fi>, failures: seq<string>, input: Input, fuel: nat)
    requires fuel >= 2 && Works(s, pid, fi, DeletingFi, queue, failures) && fi.name in s.fis
    ensures var r := Alone(env, s, pid, input, fuel);
      && r.fes == s.fes
      && r.fis == (if input.finalizers then s.fis[fi.name := s.fis[fi.name].(deleting := true)] else s.fis - {fi.name})
      && r.procs == s.procs[pid :=
           if !input.finalizers then Looping(queue, failures)
           else if input.timedOut then Looping(queue, failures + [fi.name])
           else Migrating(fi, WaitingForFi, queue, failures)]
  {
    hide Alone, MigratedFeName;
    AloneStep(env, s, pid, input, fuel);
    var waiting := MigrateStep(env, s, pid, s.procs[pid], input);
    AloneStep(env, waiting, pid, input, fuel - 1);
    var end := MigrateStep(env, waiting, pid, waiting.procs[pid], input);
    WaitingEnds(env, end, pid, input, fuel - 2);
  }

  /** A migrator that waits in vain, or has ended this migration, stays where it is. */
  lemma {:induction false} WaitingEnds(env: Env, s: State, pid: nat, input: Input, fuel: nat)
    requires pid in s.procs
    requires s.procs[pid].Migrating? ==> s.procs[pid].phase == WaitingForFi && s.procs[pid].fi.name in s.fis && !input.timedOut
    ensures Alone(env, s, pid, input, fuel) == s
  {
    if fuel > 0 && s.procs[pid].Migrating? { WaitingEnds(env, s, pid, input, fuel - 1); }
  }

  // ----- One migration -----

  /**
   Run alone on a stored integration, the migrator fails on a name that is taken
   and changes nothing; otherwise the extension is left as it should be, the
   integration is deleted or marked, and everything else is as it was.
   */
  lemma MigratesAlone(env: Env, s: State, pid: nat, fi: Fi, queue: seq<Fi>, failures: seq<string>, input: Input, fuel: nat)
    requires fuel >= 5 && Works(s, pid, fi, GettingFe, queue, failures) && fi.name in s.fis
    ensures var r, name := Alone(env, s, pid, input, fuel), MigratedFeName(env, fi.name);
      if Taken(env, s, fi) then r == s.(procs := s.procs[pid := Looping(queue, failures + [fi.name])])
      else
        && name in r.fes && Leaves(env, fi, Before(env, s, fi), input.rest, r.fes[name]) && r.fes == s.fes[name := r.fes[name]]
        && r.fis == (if input.finalizers then s.fis[fi.name := s.fis[fi.name].(deleting := true)] else s.fis - {fi.name})
        && r.procs == s.procs[pid :=
             if !input.finalizers then Looping(queue, failures)
             else if input.timedOut then Looping(queue, failures + [fi.name])
             else Migrating(fi, WaitingForFi, queue, failures)]
  {
    hide Alone, Leaves, MigratedFeName, OwnedBy, MadeFrom, Before;
    var name := MigratedFeName(env, fi.name);
    if Taken(env, s, fi) {
      UpsertedIsMerged(env, s, fi, input.rest);
      AloneStep(env, s, pid, input, fuel);
      WaitingEnds(env, MigrateStep(env, s, pid, s.procs[pid], input), pid, input, fuel - 1);
    } else {
      var fe, left := UpsertEnds(env, s, pid, fi, queue, failures, input, fuel);
      DeletingEnds(env, Go(s.(fes := s.fes[name := fe]), pid, Migrating(fi, DeletingFi, queue, failures)), pid, fi, queue, failures, input, left);
    }
  }
}
