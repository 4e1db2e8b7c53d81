/**
  The environment profile store: copy-on-write generations, physical pointers, and an
  authenticated manifest that names the active and the recovery generation together with
  the tags of their contents. `Settled` says which collection a settings file stands for;
  it depends on the manifest and the generations only, so the pointer writes and the
  garbage collection cannot move it, and the manifest write moves it in one step.

  Tags and the manifest's own tag are taken to be injective, so a tag is modelled by the
  collection it authenticates. Settings files are schema-2 files.
*/
module ProfileStore {
  import opened AtomicRegister
  import opened Crash

  datatype Kind = Home | Office | Travel | Presentation

  datatype Profile = Profile(kind: Kind, layout: int, valid: bool)

  datatype Collection = Collection(profiles: map<Kind, Profile>, active: Kind)

  /** `validProfileCollection`: one valid profile of each kind. */
  predicate ValidCollection(c: Collection): (ok: bool)
    ensures ok <==> Complete(c)
  {
    var ok := forall kind: Kind :: kind in c.profiles && c.profiles[kind].kind == kind && c.profiles[kind].valid;
    assert ok ==> c.profiles.Keys == {Home, Office, Travel, Presentation} by {
      assert ok ==> Home in c.profiles && Office in c.profiles && Travel in c.profiles && Presentation in c.profiles;
      forall kind | kind in c.profiles ensures kind in {Home, Office, Travel, Presentation} {
        assert kind.Home? || kind.Office? || kind.Travel? || kind.Presentation?;
      }
    }
    assert Complete(c) ==> ok by {
      forall kind: Kind | Complete(c) ensures kind in c.profiles {
        assert kind.Home? || kind.Office? || kind.Travel? || kind.Presentation?;
      }
    }
    ok
  }

  /** The four kinds and no others, each with a valid profile of that kind. */
  ghost predicate Complete(c: Collection) {
    && c.profiles.Keys == {Home, Office, Travel, Presentation}
    && forall kind <- c.profiles.Keys :: c.profiles[kind].kind == kind && c.profiles[kind].valid
  }

  type Generation = nat

  /** A generation group as `readGeneration` finds it: complete, damaged, or of a newer schema. */
  datatype Content = Readable(collection: Collection) | Damaged | Newer

  datatype Manifest = Manifest(active: Generation, recovery: Option<Generation>,
                               activeTag: Collection, recoveryTag: Option<Collection>)

  /** The root keys: two physical pointers and the manifest, absent when it does not authenticate. */
  datatype Root = Root(active: Generation, recovery: Option<Generation>, manifest: Option<Manifest>)

  datatype Settings = Settings(root: Root, generations: map<Generation, Content>)

  predicate Authentic(s: Settings, g: Generation, tag: Collection) {
    g in s.generations && s.generations[g] == Readable(tag)
  }

  predicate PointersMatch(root: Root, m: Manifest) {
    root.active == m.active && root.recovery == m.recovery
  }

  /** `persist` was cut between its pointer write and its manifest write. */
  predicate TornPersist(s: Settings, m: Manifest) {
    && s.root.active != m.active && s.root.recovery == Some(m.active)
    && Authentic(s, m.active, m.activeTag)
    && s.root.active in s.generations && s.generations[s.root.active].Readable?
  }

  /** A recovery promotion was cut between its pointer write and its manifest write. */
  predicate TornPromotion(s: Settings, m: Manifest) {
    && m.recovery == Some(s.root.active) && s.root.recovery.None?
    && !Authentic(s, m.active, m.activeTag)
    && m.recoveryTag.Some? && Authentic(s, s.root.active, m.recoveryTag.value)
  }

  /** The generation a file stands for: the manifest's active one while it authenticates, else its recovery one. */
  ghost function SettledGeneration(s: Settings): Option<Generation> {
    if s.root.manifest.None? then None
    else
      var m := s.root.manifest.value;
      if Authentic(s, m.active, m.activeTag) then Some(m.active)
      else if m.recovery.Some? && m.recoveryTag.Some? && Authentic(s, m.recovery.value, m.recoveryTag.value)
      then m.recovery
      else None
  }

  ghost function Settled(s: Settings): Option<Collection> {
    var g := SettledGeneration(s);
    if g.Some? && g.value in s.generations && s.generations[g.value].Readable?
    then Some(s.generations[g.value].collection) else None
  }

  ghost predicate ManifestFits(s: Settings) {
    && s.root.manifest.Some?
    && var m := s.root.manifest.value;
       && m.recovery != Some(m.active) && m.active in s.generations
       && (m.recovery.Some? ==> m.recovery.value in s.generations && m.recoveryTag.Some?)
       && SettledGeneration(s).Some?
  }

  /** A file from which `load`, or failing that `recoverLastValidGeneration`, gets a collection. */
  ghost predicate Recoverable(s: Settings) {
    && ManifestFits(s)
    && var m := s.root.manifest.value;
       PointersMatch(s.root, m) || TornPersist(s, m) || TornPromotion(s, m)
  }

  datatype World = World(disk: Settings, view: Settings)

  /** Writing the settings file stores the whole pending change or none of it, except that a
      generation group being created may be left damaged. The store is given a plain sync, so
      a success that is reported does not mean that the change is stored. */
  ghost predicate SyncMay(w: World, w': World, r: Run<bool>) {
    && w'.view == (if r.Crashed? then w'.disk else w.view)
    && (|| w'.disk == w.disk || w'.disk == w.view
        || (w.view.root == w.disk.root
            && exists g :: g in w.view.generations && g !in w.disk.generations && w'.disk == Damage(w.disk, g)))
  }

  function Damage(s: Settings, g: Generation): Settings {
    s.(generations := s.generations[g := Damaged])
  }

  /** What `persist` sets out to do, from the file `before`. */
  datatype Plan = Plan(before: Settings, recovery: Generation, recoveryTag: Collection, collection: Collection,
                       generation: Generation)

  datatype LoadStatus = Loaded | InvalidSchema | FutureSchema | StoreError

  datatype SaveResult =
    | Success
    | InvalidProfile
    | ReadOnlyFuture
    | ConcurrentModification
    | SettingsError
    | IndeterminateState

  datatype RecoveryResult =
    | NotNeeded
    | Recovered
    | Unavailable
    | ReadOnlyFutureSchema
    | RecoveryError
    | RecoveryIndeterminate

  datatype Change = ReplaceAll(collection: Collection) | ReplaceProfile(profile: Profile) | SetActive(kind: Kind)

  /** What a mutation promises of the collection that it leaves. */
  ghost predicate Obeyed(change: Change, before: Collection, after: Collection) {
    match change
    case ReplaceAll(collection) => after == collection
    case ReplaceProfile(profile) =>
      && after.active == before.active && profile.kind in after.profiles && after.profiles[profile.kind] == profile
      && forall kind :: kind != profile.kind ==>
           (kind in after.profiles <==> kind in before.profiles)
           && (kind in after.profiles ==> after.profiles[kind] == before.profiles[kind])
    case SetActive(kind) => after.active == kind && after.profiles == before.profiles
  }

  function Changed(c: Collection, change: Change): (c': Collection)
    ensures Obeyed(change, c, c')
  {
    match change
    case ReplaceAll(collection) => collection
    case ReplaceProfile(profile) => c.(profiles := c.profiles[profile.kind := profile])
    case SetActive(kind) => c.(active := kind)
  }

  class Store {
    var disk: Settings
    var view: Settings
    var status: LoadStatus
    var loaded: Option<(Generation, Collection)>
    /** `saveFailed_`: set by an indeterminate write, cleared only by an explicit recovery. */
    var latched: bool
    ghost var errors: nat
    /** How many of the errors were failures to read the key. */
    ghost var unkeyed: nat
    /** Set when a sync of the current call has reported success with the change still pending. */
    ghost var lazy: bool

    ghost function Now(): World
      reads this
    {
      World(disk, view)
    }

    method Sync() returns (r: Run<bool>)
      modifies this`disk, this`view, this`errors, this`lazy
      ensures SyncMay(old(Now()), Now(), r)
      ensures errors == old(errors) + if r.Finished? && !r.value then 1 else 0
      ensures lazy == (old(lazy) || (r.Finished? && r.value && disk != view))
    {
      var stored: bool, dies: bool, fails: bool, torn: Generation := *, *, *, *;
      if stored {
        disk := view;
      } else if view.root == disk.root && torn in view.generations && torn !in disk.generations {
        disk := Damage(disk, torn);
      }
      if dies {
        view := disk;
        return Crashed;
      }
      if fails {
        errors := errors + 1;
        return Finished(false);
      }
      lazy := lazy || disk != view;
      return Finished(true);
    }

    /** Reading the key that authenticates a manifest. */
    method Key() returns (ok: bool)
      modifies this`errors, this`unkeyed
      ensures errors - old(errors) == unkeyed - old(unkeyed) == if ok then 0 else 1
    {
      ok := *;
      errors, unkeyed := errors + (if ok then 0 else 1), unkeyed + (if ok then 0 else 1);
    }

    /** `load`: accept the file only if the manifest authenticates, the pointers agree with it
        and the active generation carries its tag. */
    method Load()
      modifies this`status, this`loaded, this`errors, this`unkeyed
      ensures errors == old(errors) || errors == old(errors) + 1
      ensures errors - old(errors) == unkeyed - old(unkeyed)
      ensures status != StoreError && (status == Loaded <==> loaded.Some?)
      ensures status == Loaded <==> errors == old(errors) && Loadable(view)
      ensures status == Loaded ==> loaded == Some((view.root.active, view.root.manifest.value.activeTag))
      ensures status == FutureSchema <==> errors == old(errors) && Future(view)
    {
      loaded := None;
      status := InvalidSchema;
      if view.root.manifest.None? {
        return;
      }
      var keyed := Key();
      var m := view.root.manifest.value;
      if !keyed || !PointersMatch(view.root, m) || !ManifestShape(view) {
        return;
      }
      match view.generations[m.active]
      case Newer =>
        status := FutureSchema;
      case Damaged =>
      case Readable(collection) =>
        if collection == m.activeTag {
          status := Loaded;
          loaded := Some((m.active, collection));
        }
    }

    /** `persist`: write the generation, flip the pointers, write the manifest, then collect
        every generation that is neither the new one nor its recovery. */
    method Persist(collection: Collection, recoveryOverride: Option<Generation>, generation: Generation)
        returns (r: Run<SaveResult>)
      requires Recoverable(disk) && Recoverable(view) && Loadable(view)
      requires status == Loaded && loaded == Some((view.root.active, view.root.manifest.value.activeTag))
      requires generation !in view.generations && generation !in disk.generations
      modifies this
      ensures errors >= old(errors) && (old(lazy) ==> lazy)
      ensures var recovery := if recoveryOverride.Some? then recoveryOverride.value else Head(old(view));
              Reached(disk, old(disk), old(view), recovery, collection, generation)
              && (r.Finished? ==> Persisted(old(view), view, recovery, collection, generation))
      ensures r.Crashed? ==> view == disk
      ensures r.Finished? && r.value == Success ==>
                && view.root.manifest != old(view).root.manifest && status == Loaded
                && loaded == Some((generation, collection)) && !latched
                && (lazy || disk.root == view.root) && (errors == old(errors) ==> lazy || view == disk)
                && (recoveryOverride.None? ==>
                      Authentic(view, old(loaded).value.0, old(loaded).value.1)
                      && view.root.recovery == Some(old(loaded).value.0))
                && (recoveryOverride.Some? ==> view.root.recovery == recoveryOverride)
                && (errors == old(errors) ==> view.generations.Keys == {generation, view.root.recovery.value})
                && ValidCollection(collection)
      ensures r.Finished? && r.value != Success ==> view == old(view)
      ensures r.Finished? && r.value == IndeterminateState ==> latched && errors > old(errors)
      ensures r.Finished? && r.value != Success && r.value != IndeterminateState ==>
                latched == old(latched) && (lazy || disk == view || disk == old(disk))
      ensures r.Finished? && r.value == SettingsError ==> errors > old(errors)
      ensures r.Finished? ==> r.value in {Success, InvalidProfile, SettingsError, IndeterminateState}
      ensures r.Finished? && r.value == InvalidProfile ==>
                !ValidCollection(collection) || Unreadable(old(view), recoveryOverride)
      ensures r.Finished? && r.value == Success ==> !Unreadable(old(view), recoveryOverride)
      ensures r.Finished? && r.value == InvalidProfile ==> disk == old(disk)
    {
      if !ValidCollection(collection) {
        return Finished(InvalidProfile);
      }
      var keyed := Key();
      if !keyed {
        return Finished(SettingsError);
      }
      var m := view.root.manifest.value;
      var recovery, recoveryTag := m.active, m.activeTag;
      if recoveryOverride.Some? {
        if Unreadable(view, recoveryOverride) {
          return Finished(InvalidProfile);
        }
        recovery, recoveryTag := recoveryOverride.value, view.generations[recoveryOverride.value].collection;
      }
      r := WriteGeneration(Plan(view, recovery, recoveryTag, collection, generation), disk);
    }

    /** `Sync` in the course of a plan. */
    method Step(plan: Plan, ghost start: Settings) returns (r: Run<bool>)
      requires Sound(plan, start) && ReachedBy(disk, start, plan) && PersistedBy(view, plan)
      modifies this`disk, this`view, this`errors, this`lazy
      ensures SyncMay(old(Now()), Now(), r) && ReachedBy(disk, start, plan)
      ensures errors == old(errors) + if r.Finished? && !r.value then 1 else 0
      ensures lazy == (old(lazy) || (r.Finished? && r.value && disk != view))
    {
      r := Sync();
      StepReaches(old(Now()), Now(), r, start, plan);
    }

    /** Store the new generation. */
    method WriteGeneration(plan: Plan, ghost start: Settings) returns (r: Run<SaveResult>)
      requires Sound(plan, start) && ReachedBy(disk, start, plan) && view == plan.before
      modifies this
      ensures PersistEffect(plan, start, r) && errors >= old(errors) && (old(lazy) ==> lazy)
      ensures r.Finished? && r.value == Success && errors == old(errors) ==>
                (lazy || view == disk) && view.generations.Keys == {plan.generation, plan.recovery}
      ensures r.Finished? && r.value == SettingsError ==> latched == old(latched) && errors > old(errors)
      ensures r.Finished? && r.value == IndeterminateState ==> errors > old(errors)
    {
      view := Stored(plan);
      PlanStages(plan);
      var written :- Step(plan, start);
      if !written {
        r := Restore(plan, start);
        return;
      }
      r := Flip(plan, start);
    }

    /** Flip the pointers. */
    method Flip(plan: Plan, ghost start: Settings) returns (r: Run<SaveResult>)
      requires Sound(plan, start) && ReachedBy(disk, start, plan) && view == Stored(plan)
      modifies this
      ensures PersistEffect(plan, start, r) && errors >= old(errors) && (old(lazy) ==> lazy)
      ensures r.Finished? && r.value == Success && errors == old(errors) ==>
                (lazy || view == disk) && view.generations.Keys == {plan.generation, plan.recovery}
      ensures r.Finished? && r.value == SettingsError ==> latched == old(latched) && errors > old(errors)
      ensures r.Finished? && r.value == IndeterminateState ==> errors > old(errors)
    {
      view := Pointed(plan);
      PlanStages(plan);
      var pointed :- Step(plan, start);
      if !pointed {
        r := Restore(plan, start);
        return;
      }
      r := SwitchManifest(plan, start);
    }

    /** Write the manifest, which is the commit point, then collect garbage. */
    method SwitchManifest(plan: Plan, ghost start: Settings) returns (r: Run<SaveResult>)
      requires Sound(plan, start) && ReachedBy(disk, start, plan) && view == Pointed(plan)
      modifies this
      ensures PersistEffect(plan, start, r) && errors >= old(errors) && (old(lazy) ==> lazy)
      ensures r.Finished? && r.value == Success && errors == old(errors) ==>
                (lazy || view == disk) && view.generations.Keys == {plan.generation, plan.recovery}
      ensures r.Finished? && r.value == SettingsError ==> latched == old(latched) && errors > old(errors)
      ensures r.Finished? && r.value == IndeterminateState ==> errors > old(errors)
    {
      PlanStages(plan);
      var keyed := Key();
      if !keyed {
        r := Restore(plan, start);
        return;
      }
      view := Committed(plan);
      var committed :- Step(plan, start);
      if !committed {
        r := Restore(plan, start);
        return;
      }
      status, loaded, latched := Loaded, Some((plan.generation, plan.collection)), false;
      var _ :- Collect(plan, start);
      return Finished(Success);
    }

    /** Put the previous root back, drop the new generation, and say whether that was stored. */
    method Restore(plan: Plan, ghost start: Settings) returns (r: Run<SaveResult>)
      requires Sound(plan, start) && ReachedBy(disk, start, plan)
      modifies this
      ensures PersistEffect(plan, start, r) && errors >= old(errors) && (old(lazy) ==> lazy)
      ensures r.Finished? ==>
                || (r.value == SettingsError && errors == old(errors)
                    && latched == old(latched) && status == old(status) && loaded == old(loaded))
                || (r.value == IndeterminateState && latched && errors > old(errors))
    {
      view := plan.before;
      PlanStages(plan);
      var restored :- Step(plan, start);
      if restored {
        return Finished(SettingsError);
      }
      MarkIndeterminate();
      return Finished(IndeterminateState);
    }

    method MarkIndeterminate()
      modifies this`status, this`loaded, this`latched
      ensures status == StoreError && loaded.None? && latched
    {
      status, loaded, latched := StoreError, None, true;
    }

    /** Remove every generation but the two that the manifest names, one sync at a time. */
    method Collect(plan: Plan, ghost start: Settings) returns (r: Run<()>)
      requires Sound(plan, start) && ReachedBy(disk, start, plan) && view == Committed(plan)
      modifies this`disk, this`view, this`errors, this`lazy
      ensures errors >= old(errors) && (old(lazy) ==> lazy) && ReachedBy(disk, start, plan)
      ensures r.Crashed? ==> view == disk
      ensures r.Finished? ==> Pruned(Committed(plan), view, {plan.generation, plan.recovery})
      ensures r.Finished? && errors == old(errors) ==> view.generations.Keys == {plan.generation, plan.recovery}
      ensures old(disk.root) == Committed(plan).root ==> disk.root == Committed(plan).root
      ensures r.Finished? && errors == old(errors) && old(view == disk) ==> lazy || view == disk
    {
      var todo := view.generations.Keys - {plan.generation, plan.recovery};
      while todo != {} && view.root.active == plan.generation
        invariant todo == view.generations.Keys - {plan.generation, plan.recovery}
        invariant ReachedBy(disk, start, plan) && Pruned(Committed(plan), view, {plan.generation, plan.recovery})
        invariant errors == old(errors) && (old(lazy) ==> lazy) && (old(view == disk) ==> lazy || view == disk)
        invariant old(disk.root) == Committed(plan).root ==> disk.root == Committed(plan).root
        decreases todo
      {
        var g :| g in todo;
        todo := todo - {g};
        view := view.(generations := view.generations - {g});
        PrunedPersists(plan, view);
        var ok :- Step(plan, start);
        if !ok {
          return Finished(());
        }
      }
      return Finished(());
    }

    /** What persisting leaves behind, however it ends. */
    ghost predicate PersistEffect(plan: Plan, start: Settings, r: Run<SaveResult>)
      reads this
    {
      && ReachedBy(disk, start, plan)
      && (r.Crashed? ==> view == disk)
      && (r.Finished? ==> PersistedBy(view, plan) && r.value in {Success, SettingsError, IndeterminateState})
      && (r.Finished? && r.value == Success ==>
            && view.root == Committed(plan).root && (lazy || disk.root == view.root)
            && status == Loaded && loaded == Some((plan.generation, plan.collection)) && !latched
            && Authentic(view, plan.recovery, plan.recoveryTag))
      && (r.Finished? && r.value != Success ==> view == plan.before)
      && (r.Finished? && r.value == SettingsError ==> lazy || disk == view)
      && (r.Finished? && r.value == IndeterminateState ==> latched)
    }

    /** The `sync` every public operation starts with. */
    method Refresh() returns (r: Run<bool>)
      modifies this`disk, this`view, this`errors, this`lazy
      ensures SyncMay(old(Now()), Now(), r)
      ensures errors == old(errors) + if r.Finished? && !r.value then 1 else 0
      ensures lazy == (old(lazy) || (r.Finished? && r.value && disk != view))
      ensures old(Recoverable(disk) && Recoverable(view)) ==>
                Recoverable(disk) && Recoverable(view) && (SameMeaning(disk, old(disk)) || SameMeaning(disk, old(view)))
    {
      r := Sync();
      if old(Recoverable(disk) && Recoverable(view)) {
        SyncKeeps(old(Now()), Now(), r);
      }
    }

    /** The conditional mutators: `replaceAllIfGeneration`, `replaceProfileIfGeneration` and
        `setActiveIfGeneration`; without an expected generation, their unconditional forms. */
    method Mutate(change: Change, expected: Option<Generation>, recoveryOverride: Option<Generation>,
                  generation: Generation) returns (r: Run<SaveResult>)
      requires (Recoverable(disk) && Recoverable(view)) || Ruined(view)
      requires generation !in disk.generations && generation !in view.generations
      modifies this
      ensures old(Recoverable(disk) && Recoverable(view)) ==>
                MutateEffect(old(Now()), old(latched), Now(), latched, change, expected, recoveryOverride, generation,
                             r, errors - old(errors), lazy)
      ensures old(Ruined(view)) ==>
                && SyncMay(old(Now()), Now(), if r.Crashed? then Crashed else Finished(true)) && latched == old(latched)
                && (r.Finished? ==> r.value == InvalidProfile || r.value == SettingsError)
      ensures r.Finished? && r.value == Success ==>
                loaded == Some((generation, Settled(view).value)) && status == Loaded
      ensures r.Finished? && r.value == Success ==>
                Obeyed(change, old(Settled(view).value), Settled(view).value) && Complete(Settled(view).value)
      ensures (change.ReplaceAll? && !Complete(change.collection))
              || (change.ReplaceProfile? && !change.profile.valid) ==>
                r == Finished(InvalidProfile) && Now() == old(Now())
    {
      lazy := false;
      if Improper(change) {
        return Finished(InvalidProfile);
      }
      r := MutateProper(change, expected, recoveryOverride, generation);
    }

    /** A mutator from its first sync on. */
    method MutateProper(change: Change, expected: Option<Generation>, recoveryOverride: Option<Generation>,
                        generation: Generation) returns (r: Run<SaveResult>)
      requires (Recoverable(disk) && Recoverable(view)) || Ruined(view)
      requires generation !in disk.generations && generation !in view.generations
      requires !Improper(change) && !lazy
      modifies this
      ensures old(Recoverable(disk) && Recoverable(view)) ==>
                MutateEffect(old(Now()), old(latched), Now(), latched, change, expected, recoveryOverride, generation,
                             r, errors - old(errors), lazy)
      ensures old(Ruined(view)) ==>
                && SyncMay(old(Now()), Now(), if r.Crashed? then Crashed else Finished(true)) && latched == old(latched)
                && (r.Finished? ==> r.value == SettingsError)
      ensures r.Finished? && r.value == Success ==>
                loaded == Some((generation, Settled(view).value)) && status == Loaded
    {
      var refused := Prepare(expected, generation);
      if refused != Finished(None) {
        r := if refused.Crashed? then Crashed else Finished(refused.value.value);
        if old(Recoverable(disk) && Recoverable(view)) {
          EndsEarly(old(Now()), latched, Now(), change, expected, recoveryOverride, generation, r,
                    errors - old(errors), lazy);
        }
        return;
      }
      r := MutateLoaded(change, expected, recoveryOverride, generation, old(Now()));
    }

    /** A mutator once it is known that it may persist. */
    method MutateLoaded(change: Change, ghost expected: Option<Generation>, recoveryOverride: Option<Generation>,
                        generation: Generation, ghost w: World) returns (r: Run<SaveResult>)
      requires Recoverable(disk) && Recoverable(view) && Loadable(view) && !latched && (lazy || view == disk)
      requires status == Loaded && loaded == Some((view.root.active, view.root.manifest.value.activeTag))
      requires generation !in disk.generations && generation !in view.generations
      requires Recoverable(w.disk) && view == w.view && (SameMeaning(disk, w.disk) || SameMeaning(disk, w.view))
      requires !Improper(change) && (expected.Some? ==> expected.value == view.root.active)
      modifies this
      ensures errors >= old(errors) && (old(lazy) ==> lazy)
      ensures MutateEffect(w, false, Now(), latched, change, expected, recoveryOverride, generation, r,
                           errors - old(errors), lazy)
      ensures r.Finished? && r.value == Success ==>
                loaded == Some((generation, Settled(view).value)) && status == Loaded
    {
      ghost var now, collection := Now(), Changed(loaded.value.1, change);
      ghost var recovery := if recoveryOverride.Some? then recoveryOverride.value else Head(view);
      assert Settled(view) == Some(loaded.value.1) && Head(view) == loaded.value.0;
      r := Persist(Changed(loaded.value.1, change), recoveryOverride, generation);
      ReachedIsHeir(w, now, disk, change, recovery, generation);
      if r.Finished? {
        ReachedIsHeir(w, now, view, change, recovery, generation);
      }
    }

    /** What every mutator does before it persists; `Some` is a refusal. */
    method Prepare(expected: Option<Generation>, ghost generation: Generation) returns (r: Run<Option<SaveResult>>)
      requires (Recoverable(disk) && Recoverable(view)) || Ruined(view)
      requires generation !in disk.generations && generation !in view.generations
      modifies this
      ensures errors >= old(errors) && latched == old(latched) && (old(lazy) ==> lazy)
      ensures SyncMay(old(Now()), Now(), if r.Crashed? then Crashed else Finished(true))
      ensures generation !in disk.generations && generation !in view.generations
      ensures old(Recoverable(disk) && Recoverable(view)) ==>
                Recoverable(disk) && Recoverable(view) && (SameMeaning(disk, old(disk)) || SameMeaning(disk, old(view)))
      ensures old(Ruined(view)) && r.Finished? ==> r.value == Some(SettingsError)
      ensures errors == old(errors) ==> lazy || view == disk
      ensures r.Finished? && r.value.Some? ==>
                r.value.value in {SettingsError, ReadOnlyFuture, ConcurrentModification}
      ensures r.Finished? && r.value.None? ==>
                && (lazy || view == disk) && status == Loaded && !latched && Loadable(view)
                && loaded == Some((view.root.active, view.root.manifest.value.activeTag))
                && (expected.Some? ==> expected.value == view.root.active) && errors == old(errors)
      ensures r == Finished(Some(SettingsError)) ==>
                errors > old(errors) || (!Future(view) && (!Loadable(view) || latched))
      ensures r == Finished(Some(ReadOnlyFuture)) ==> Future(view)
      ensures r == Finished(Some(ConcurrentModification)) ==>
                Loadable(view) && !latched && expected.Some? && expected.value != view.root.active
    {
      var synced :- Refresh();
      if !synced {
        return Finished(Some(SettingsError));
      }
      Load();
      if status == FutureSchema {
        return Finished(Some(ReadOnlyFuture));
      }
      if status != Loaded || latched {
        return Finished(Some(SettingsError));
      }
      if expected.Some? && expected.value != loaded.value.0 {
        return Finished(Some(ConcurrentModification));
      }
      return Finished(None);
    }

    /** `recoverLastValidGeneration`: accept a coherent file, finish a torn promotion, undo a
        torn persist, or promote the recovery generation of a damaged active one. */
    method Recover() returns (r: Run<RecoveryResult>)
      modifies this
      ensures old(Recoverable(disk) && Recoverable(view)) ==>
                RecoverEffect(old(Now()), old(latched), Now(), latched, r, errors - old(errors), lazy)
      ensures old(ManifestFits(view) && !Recoverable(view) && disk == view) && r.Finished? ==>
                && disk == view == old(view) && latched == old(latched)
                && (r.value == Unavailable || r.value == ReadOnlyFutureSchema
                    || (r.value == RecoveryError && errors > old(errors)))
      ensures old(Recoverable(disk) && Recoverable(view)) && r.Finished?
              && (r.value == NotNeeded || r.value == Recovered) ==>
                status == Loaded && loaded == Some((Head(view), Settled(view).value))
      ensures old(Ruined(view)) ==>
                && SyncMay(old(Now()), Now(), if r.Crashed? then Crashed else Finished(true)) && latched == old(latched)
                && (r.Finished? ==> r.value == Unavailable || r.value == RecoveryError)
      ensures r == Finished(Unavailable) ==> errors - old(errors) == unkeyed - old(unkeyed)
      ensures old(ManifestShape(view) && SettledGeneration(view).None?) && r.Finished? ==>
                && view == old(view) && latched == old(latched)
                && r.value in {Unavailable, ReadOnlyFutureSchema, RecoveryError}
                && (errors == old(errors) ==>
                      r.value == if OfNewerSchema(view) || Foreign(view) then ReadOnlyFutureSchema else Unavailable)
    {
      lazy := false;
      var synced :- Refresh();
      if !synced {
        return Finished(RecoveryError);
      }
      Load();
      if status == Loaded {
        latched := false;
        return Finished(NotNeeded);
      }
      if status == FutureSchema {
        return Finished(ReadOnlyFutureSchema);
      }
      r := Repair();
    }

    /** Recovery of a file that did not load. */
    method Repair() returns (r: Run<RecoveryResult>)
      modifies this
      ensures errors >= old(errors) && (old(lazy) ==> lazy)
      ensures old(Recoverable(disk) && Recoverable(view)) ==>
                RecoverEffect(old(Now()), old(latched), Now(), latched, r,
                              (errors - old(errors)) + (if old(Loadable(view) || Future(view)) then 1 else 0), lazy)
      ensures old(ManifestFits(view) && !Recoverable(view)) ==>
                Now() == old(Now()) && latched == old(latched) && r.Finished?
                && (r.value == Unavailable || r.value == ReadOnlyFutureSchema)
      ensures old(Recoverable(disk) && Recoverable(view)) && r.Finished?
              && (r.value == NotNeeded || r.value == Recovered) ==>
                status == Loaded && loaded == Some((Head(view), Settled(view).value))
      ensures old(Ruined(view)) ==> Now() == old(Now()) && latched == old(latched) && r == Finished(Unavailable)
      ensures r == Finished(Unavailable) ==>
                errors - old(errors) == unkeyed - old(unkeyed) && Now() == old(Now()) && latched == old(latched)
      ensures old(ManifestShape(view) && SettledGeneration(view).None?) ==>
                && Now() == old(Now()) && latched == old(latched)
                && r == Finished(if errors == old(errors) && Foreign(view) then ReadOnlyFutureSchema else Unavailable)
    {
      var keyed := Key();
      if !keyed || view.root.manifest.None? || !ManifestShape(view) {
        return Finished(Unavailable);
      }
      var m := view.root.manifest.value;
      if !PointersMatch(view.root, m) {
        if view.generations[m.active].Newer? {
          return Finished(ReadOnlyFutureSchema);
        }
        if TornPromotion(view, m) {
          r := FinishPromotion(m);
        } else if TornPersist(view, m) {
          r := UndoPersist(m);
        } else {
          r := Finished(Unavailable);
        }
        return;
      }
      if m.recovery.None? || Authentic(view, m.active, m.activeTag) || view.generations[m.recovery.value].Damaged? {
        return Finished(Unavailable);
      }
      if view.generations[m.recovery.value].Newer? {
        return Finished(ReadOnlyFutureSchema);
      }
      var candidate := view.generations[m.recovery.value].collection;
      if Some(candidate) != m.recoveryTag {
        return Finished(Unavailable);
      }
      r := Promote(m, candidate);
    }

    /** Finish a torn promotion: the manifest still names the generation that failed. */
    method FinishPromotion(m: Manifest) returns (r: Run<RecoveryResult>)
      requires view.root.manifest == Some(m) && ManifestShape(view) && !PointersMatch(view.root, m)
               && TornPromotion(view, m)
      requires !OfNewerSchema(view)
      modifies this
      ensures errors >= old(errors) && (old(lazy) ==> lazy)
      ensures r.Finished? ==> r.value in {Recovered, RecoveryIndeterminate, Unavailable}
      ensures r == Finished(Unavailable) ==>
                errors - old(errors) == unkeyed - old(unkeyed) && Now() == old(Now()) && latched == old(latched)
      ensures old(Recoverable(disk) && Recoverable(view)) ==>
                RecoverEffect(old(Now()), old(latched), Now(), latched, r, errors - old(errors), lazy)
      ensures old(Recoverable(disk) && Recoverable(view)) && r.Finished?
              && (r.value == NotNeeded || r.value == Recovered) ==>
                status == Loaded && loaded == Some((Head(view), Settled(view).value))
    {
      var keyed := Key();
      if !keyed {
        return Finished(Unavailable);
      }
      view := view.(root := view.root.(manifest := Some(Manifest(view.root.active, None, m.recoveryTag.value, None))));
      var loads :- Reload();
      return Finished(if loads then Recovered else RecoveryIndeterminate);
    }

    /** Undo a torn persist: the manifest is still the old one. */
    method UndoPersist(m: Manifest) returns (r: Run<RecoveryResult>)
      requires view.root.manifest == Some(m) && ManifestShape(view) && !PointersMatch(view.root, m)
               && TornPersist(view, m)
      modifies this
      ensures errors >= old(errors) && (old(lazy) ==> lazy)
      ensures r.Finished? ==> r.value in {NotNeeded, RecoveryIndeterminate}
      ensures old(Recoverable(disk) && Recoverable(view)) ==>
                RecoverEffect(old(Now()), old(latched), Now(), latched, r, errors - old(errors), lazy)
      ensures old(Recoverable(disk) && Recoverable(view)) && r.Finished?
              && (r.value == NotNeeded || r.value == Recovered) ==>
                status == Loaded && loaded == Some((Head(view), Settled(view).value))
    {
      view := view.(root := view.root.(active := m.active, recovery := m.recovery));
      var loads :- Reload();
      return Finished(if loads then NotNeeded else RecoveryIndeterminate);
    }

    /** Write a repaired root and load it: the latch is cleared, or set. */
    method Reload() returns (r: Run<bool>)
      modifies this
      ensures errors >= old(errors) && (old(lazy) ==> lazy)
              && SyncMay(old(Now()), Now(), if r.Crashed? then Crashed else Finished(true))
      ensures old(Recoverable(disk) && Recoverable(view)) ==>
                Recoverable(disk) && Recoverable(view) && (SameMeaning(disk, old(disk)) || SameMeaning(disk, old(view)))
      ensures r.Finished? && r.value ==>
                (lazy || disk == view) && !latched && Loadable(view)
                && status == Loaded && loaded == Some((view.root.active, view.root.manifest.value.activeTag))
      ensures r.Finished? && !r.value ==> latched && (errors > old(errors) || !Loadable(view))
    {
      var written :- Refresh();
      if !written {
        MarkIndeterminate();
        return Finished(false);
      }
      Load();
      if status != Loaded {
        MarkIndeterminate();
        return Finished(false);
      }
      latched := false;
      return Finished(true);
    }

    /** Publish the recovery generation's pointer, then a manifest that names it as active. The
        latch, if it is set, stays set. */
    method Promote(m: Manifest, candidate: Collection) returns (r: Run<RecoveryResult>)
      requires Promotable(view, m, candidate)
      modifies this
      ensures errors >= old(errors) && (old(lazy) ==> lazy)
      ensures old(Recoverable(disk)) ==>
                RecoverEffect(old(Now()), old(latched), Now(), latched, r,
                              (errors - old(errors)) + (if old(Future(view)) then 1 else 0), lazy)
      ensures r.Finished? && (r.value == NotNeeded || r.value == Recovered) ==>
                status == Loaded && loaded == Some((Head(view), candidate)) && latched == old(latched)
      ensures r.Finished? && errors == old(errors) ==> r.value == Recovered
      ensures r.Finished? ==> r.value in {Recovered, RecoveryError, RecoveryIndeterminate}
    {
      var before := view;
      PromotionStages(before, m, candidate);
      view := PointedBack(before, m);
      var pointed :- Refresh();
      if !pointed {
        r := RestoreLineage(before);
        return;
      }
      r := PromoteManifest(before, m, candidate);
    }

    /** The promotion once its pointer is written. */
    method PromoteManifest(before: Settings, m: Manifest, candidate: Collection) returns (r: Run<RecoveryResult>)
      requires Promotable(before, m, candidate) && view == PointedBack(before, m)
      modifies this
      ensures errors >= old(errors) && (old(lazy) ==> lazy)
      ensures old(Recoverable(disk)) ==> Recoverable(disk) && Recoverable(view)
      ensures old(Recoverable(disk)) ==>
                SameMeaning(disk, old(disk)) || SameMeaning(disk, before) || PromotedFrom(disk, before, m)
      ensures r.Crashed? ==> view == disk
      ensures r.Finished? && r.value != Recovered ==>
                view == before && errors > old(errors) && latched == (old(latched) || r.value == RecoveryIndeterminate)
      ensures r.Finished? && r.value == Recovered ==>
                && view == PromotedTo(before, m, candidate) && (lazy || disk == view) && latched == old(latched)
                && status == Loaded && loaded == Some((m.recovery.value, candidate))
      ensures r.Finished? ==> r.value in {Recovered, RecoveryError, RecoveryIndeterminate}
    {
      var keyed := Key();
      if !keyed {
        r := RestoreLineage(before);
        return;
      }
      PromotionStages(before, m, candidate);
      view := PromotedTo(before, m, candidate);
      var committed :- Refresh();
      if !committed {
        r := RestoreLineage(before);
        return;
      }
      Load();
      if status == Loaded && loaded == Some((m.recovery.value, candidate)) {
        return Finished(Recovered);
      }
      r := RestoreLineage(before);
    }

    method RestoreLineage(before: Settings) returns (r: Run<RecoveryResult>)
      requires Recoverable(before)
      modifies this
      ensures errors >= old(errors) && (old(lazy) ==> lazy)
      ensures old(Recoverable(disk)) ==>
                Recoverable(disk) && Recoverable(view) && (SameMeaning(disk, old(disk)) || SameMeaning(disk, before))
      ensures r.Crashed? ==> view == disk && latched == old(latched)
      ensures r.Finished? ==>
                view == before
                && ((r.value == RecoveryError && latched == old(latched) && errors == old(errors))
                    || (r.value == RecoveryIndeterminate && latched && errors > old(errors)))
    {
      view := before;
      var restored :- Refresh();
      if restored {
        return Finished(RecoveryError);
      }
      MarkIndeterminate();
      return Finished(RecoveryIndeterminate);
    }
  }

  /** The active generation no longer authenticates, and the recovery generation does. */
  ghost predicate Promotable(s: Settings, m: Manifest, candidate: Collection) {
    && Recoverable(s) && s.root.manifest == Some(m) && PointersMatch(s.root, m) && !Authentic(s, m.active, m.activeTag)
    && m.recovery.Some? && m.recoveryTag == Some(candidate) && Authentic(s, m.recovery.value, candidate)
  }

  function PointedBack(before: Settings, m: Manifest): Settings
    requires m.recovery.Some?
  {
    before.(root := before.root.(active := m.recovery.value, recovery := None))
  }

  function PromotedTo(before: Settings, m: Manifest, candidate: Collection): Settings
    requires m.recovery.Some?
  {
    before.(root := Root(m.recovery.value, None, Some(Manifest(m.recovery.value, None, candidate, None))))
  }

  /** Neither write of a promotion moves what the file stands for. */
  lemma PromotionStages(before: Settings, m: Manifest, candidate: Collection)
    requires Promotable(before, m, candidate)
    ensures Recoverable(PointedBack(before, m)) && SameMeaning(PointedBack(before, m), before)
    ensures var after := PromotedTo(before, m, candidate);
            Recoverable(after) && Loadable(after) && Settled(after) == Settled(before) == Some(candidate)
            && SettledGeneration(after) == SettledGeneration(before) == m.recovery == Some(Head(after))
            && Head(after) != Head(before)
  {
  }

  /** A file that is to be left alone for a newer program passes every test of a promotion. Only
      `load` keeps recovery from it, and `load` does not when the key could not be read. */
  lemma FutureIsPromotable(s: Settings)
    requires Recoverable(s) && Future(s)
    ensures var m := s.root.manifest.value; m.recoveryTag.Some? && Promotable(s, m, m.recoveryTag.value)
  {
  }

  /** The file stands for what it stood for, under a manifest that names the recovery generation. */
  ghost predicate PromotedFrom(s: Settings, before: Settings, m: Manifest) {
    Some(Head(s)) == m.recovery && Settled(s) == Settled(before)
  }

  predicate ManifestShape(s: Settings)
    ensures ManifestShape(s) ==> s.root.manifest.Some? && s.root.manifest.value.active in s.generations
  {
    s.root.manifest.Some? &&
    var m := s.root.manifest.value;
    && m.recovery != Some(m.active) && m.active in s.generations
    && (m.recovery.Some? ==> m.recovery.value in s.generations)
  }

  /** A manifest is missing, or a group that it names: the shape that nothing accepts. */
  predicate Ruined(s: Settings) {
    !ManifestShape(s)
  }

  /** What `load` leaves alone for a newer program. */
  predicate Future(s: Settings) {
    ManifestShape(s) && PointersMatch(s.root, s.root.manifest.value) && OfNewerSchema(s)
  }

  /** What `load` accepts. */
  predicate Loadable(s: Settings) {
    ManifestShape(s) && PointersMatch(s.root, s.root.manifest.value)
    && Authentic(s, s.root.active, s.root.manifest.value.activeTag)
  }

  /** A file in the course of persisting: it stands for the old collection or, exactly when
      its manifest is the new one, for the new collection. */
  ghost predicate Persisted(before: Settings, s: Settings, recovery: Generation, collection: Collection,
                            generation: Generation) {
    && ManifestFits(s)
    && (recovery == Head(before) ==> Recoverable(s))
    && Settled(s) == (if s.root.manifest == before.root.manifest then Settled(before) else Some(collection))
    && (s.root.manifest != before.root.manifest ==> Head(s) == generation)
  }

  /** What is on disk in the course of persisting: what was there, or a file the plan has come to. */
  ghost predicate Reached(s: Settings, start: Settings, before: Settings, recovery: Generation, collection: Collection,
                          generation: Generation) {
    (Recoverable(s) && SameMeaning(s, start)) || Persisted(before, s, recovery, collection, generation)
  }

  ghost predicate PersistedBy(s: Settings, plan: Plan) {
    Persisted(plan.before, s, plan.recovery, plan.collection, plan.generation)
  }

  ghost predicate ReachedBy(s: Settings, start: Settings, plan: Plan) {
    Reached(s, start, plan.before, plan.recovery, plan.collection, plan.generation)
  }

  ghost predicate Sound(plan: Plan, start: Settings) {
    && Recoverable(plan.before) && Loadable(plan.before) && plan.generation !in plan.before.generations
    && Recoverable(start) && plan.generation !in start.generations
    && plan.recovery in plan.before.generations && plan.before.generations[plan.recovery] == Readable(plan.recoveryTag)
  }

  /** The files a plan goes through. */
  function Stored(plan: Plan): Settings {
    plan.before.(generations := plan.before.generations[plan.generation := Readable(plan.collection)])
  }

  function Pointed(plan: Plan): Settings {
    Stored(plan).(root := plan.before.root.(active := plan.generation, recovery := Some(plan.recovery)))
  }

  function Committed(plan: Plan): Settings {
    Stored(plan).(root := Root(plan.generation, Some(plan.recovery),
                               Some(Manifest(plan.generation, Some(plan.recovery), plan.collection,
                                             Some(plan.recoveryTag)))))
  }

  lemma PlanStages(plan: Plan)
    requires Sound(plan, plan.before)
    ensures PersistedBy(plan.before, plan) && PersistedBy(Stored(plan), plan) && PersistedBy(Pointed(plan), plan)
    ensures PersistedBy(Committed(plan), plan) && Authentic(Committed(plan), plan.recovery, plan.recoveryTag)
  {
  }

  lemma PrunedPersists(plan: Plan, s: Settings)
    requires Sound(plan, plan.before) && Pruned(Committed(plan), s, {plan.generation, plan.recovery})
    ensures PersistedBy(s, plan) && Authentic(s, plan.recovery, plan.recoveryTag)
  {
    assert plan.generation in s.generations && plan.recovery in s.generations;
  }

  /** A damaged group that no root names changes nothing. */
  lemma DamageKeeps(s: Settings, g: Generation)
    requires ManifestFits(s) && g !in s.generations
    ensures ManifestFits(Damage(s, g)) && SameMeaning(Damage(s, g), s) && Head(Damage(s, g)) == Head(s)
    ensures Recoverable(s) ==> Recoverable(Damage(s, g))
  {
  }

  /** A sync, whatever it stores, leaves a file that the plan has come to. */
  lemma StepReaches(w: World, w': World, r: Run<bool>, start: Settings, plan: Plan)
    requires SyncMay(w, w', r) && ReachedBy(w.disk, start, plan) && PersistedBy(w.view, plan)
    ensures ReachedBy(w'.disk, start, plan)
  {
    if w'.disk != w.disk && w'.disk != w.view {
      var g :| g in w.view.generations && g !in w.disk.generations && w'.disk == Damage(w.disk, g);
      DamageKeeps(w.disk, g);
    }
  }

  /** The same file with some generations removed, none of them in `keep`. */
  ghost predicate Pruned(s: Settings, s': Settings, keep: set<Generation>) {
    && s'.root == s.root
    && (forall g :: g in s'.generations ==> g in s.generations && s'.generations[g] == s.generations[g])
    && (forall g :: g in keep && g in s.generations ==> g in s'.generations)
  }

  /** What one mutation may do when `errors` stores and key reads reported failure and `lazy`
      says that a sync reported success without storing. Its initial refresh may store a
      pending change, so the file may first come to stand for what the process already reads. */
  ghost predicate MutateEffect(w: World, latched: bool, w': World, latched': bool, change: Change,
                               expected: Option<Generation>, recoveryOverride: Option<Generation>,
                               generation: Generation, r: Run<SaveResult>, errors: int, lazy: bool) {
    && errors >= 0
    && (errors == 0 && !lazy && w.view == w.disk ==> w'.view == w'.disk)
    && ManifestFits(w'.disk) && ManifestFits(w'.view)
    && (recoveryOverride.None? ==> Recoverable(w'.disk) && Recoverable(w'.view))
    && (r.Crashed? ==> w'.view == w'.disk)
    && Heir(w'.disk, w, change, generation) && Heir(w'.view, w, change, generation)
    && (latched && r.Finished? ==> latched' && r.value != Success)
    && (r.Finished? && r.value == Success ==>
          && Head(w'.view) == generation && (expected.Some? ==> expected.value == Head(w.view))
          && Settled(w.view).Some? && Settled(w'.view) == Some(Changed(Settled(w.view).value, change))
          && (lazy || (SameMeaning(w'.disk, w'.view) && w'.disk.root == w'.view.root))
          && !latched')
    && (r.Finished? && r.value == Success ==>
          && w'.view.root.recovery == (if recoveryOverride.Some? then recoveryOverride else Some(Head(w.view)))
          && (recoveryOverride.None? ==> Authentic(w'.view, Head(w.view), Settled(w.view).value))
          && (errors == 0 ==> w'.view.generations.Keys == {generation, w'.view.root.recovery.value}))
    && (r.Finished? ==> Deserved(w.view, latched, change, expected, recoveryOverride, r.value, errors))
    && (r.Finished? && r.value == IndeterminateState ==> latched' && errors > 0)
    && (r.Finished? && r.value != Success && r.value != IndeterminateState ==>
          SameMeaning(w'.view, w.view) && (lazy || SameMeaning(w'.disk, w.disk) || SameMeaning(w'.disk, w.view)))
  }

  /** What is refused before the file is looked at. */
  predicate Improper(change: Change) {
    (change.ReplaceAll? && !ValidCollection(change.collection)) || (change.ReplaceProfile? && !change.profile.valid)
  }

  /** An explicit recovery generation that is not there or cannot be read. */
  predicate Unreadable(s: Settings, recoveryOverride: Option<Generation>) {
    recoveryOverride.Some?
    && (recoveryOverride.value !in s.generations || !s.generations[recoveryOverride.value].Readable?)
  }

  /** When a mutation may give which answer. Where no error is reported, exactly one fits. */
  ghost predicate Deserved(s: Settings, latched: bool, change: Change, expected: Option<Generation>,
                           recoveryOverride: Option<Generation>, answer: SaveResult, errors: int) {
    var open := Loadable(s) && !latched && (expected.Some? ==> expected.value == s.root.active);
    var fits := open && Complete(Changed(s.root.manifest.value.activeTag, change)) && !Unreadable(s, recoveryOverride);
    match answer
    case Success => !Improper(change) && fits
    case InvalidProfile => Improper(change) || (open && !fits)
    case ReadOnlyFuture => !Improper(change) && Future(s)
    case ConcurrentModification => !Improper(change) && Loadable(s) && !latched && !open
    case SettingsError => !Improper(change) && (errors > 0 || (!Future(s) && (!Loadable(s) || latched)))
    case IndeterminateState => errors > 0
  }

  /** Where no error is reported the answer is determined, and it is Success for a proper change
      of a complete collection, from the expected generation of a file that loads. */
  lemma AnswerIsDetermined(s: Settings, latched: bool, change: Change, expected: Option<Generation>,
                           recoveryOverride: Option<Generation>, answer: SaveResult, other: SaveResult)
    requires Deserved(s, latched, change, expected, recoveryOverride, answer, 0)
    ensures Deserved(s, latched, change, expected, recoveryOverride, other, 0) ==> other == answer
    ensures Loadable(s) && !latched && (expected.Some? ==> expected.value == s.root.active)
            && (match change
                case ReplaceAll(collection) => Complete(collection)
                case ReplaceProfile(profile) => profile.valid && Complete(s.root.manifest.value.activeTag)
                case SetActive(_) => Complete(s.root.manifest.value.activeTag))
            && !Unreadable(s, recoveryOverride) ==>
              answer == Success
  {
  }

  /** What a mutation may do that ends after its first sync. */
  lemma EndsEarly(w: World, latched: bool, w': World, change: Change, expected: Option<Generation>,
                  recoveryOverride: Option<Generation>, generation: Generation, r: Run<SaveResult>, errors: nat,
                  lazy: bool)
    requires Recoverable(w.disk) && Recoverable(w.view) && Recoverable(w'.disk)
    requires w'.view == if r.Crashed? then w'.disk else w.view
    requires SameMeaning(w'.disk, w.disk) || SameMeaning(w'.disk, w.view)
    requires errors == 0 ==> lazy || w'.view == w'.disk
    requires r.Finished? ==>
               && r.value in {SettingsError, ReadOnlyFuture, ConcurrentModification}
               && Deserved(w.view, latched, change, expected, recoveryOverride, r.value, errors)
    ensures MutateEffect(w, latched, w', latched, change, expected, recoveryOverride, generation, r, errors, lazy)
  {
  }

  /** The generation a manifest names as active. */
  ghost function Head(s: Settings): Generation {
    if s.root.manifest.Some? then s.root.manifest.value.active else 0
  }

  ghost predicate SameMeaning(s: Settings, s': Settings) {
    s.root.manifest == s'.root.manifest && Settled(s) == Settled(s')
  }

  lemma SyncKeeps(w: World, w': World, r: Run<bool>)
    requires Recoverable(w.disk) && Recoverable(w.view) && SyncMay(w, w', r)
    ensures Recoverable(w'.disk) && Recoverable(w'.view)
    ensures SameMeaning(w'.disk, w.disk) || SameMeaning(w'.disk, w.view)
  {
    if w'.disk != w.disk && w'.disk != w.view {
      var g :| g in w.view.generations && g !in w.disk.generations && w'.disk == Damage(w.disk, g);
      DamageKeeps(w.disk, g);
    }
  }

  /** A file that stands for what one of the two stood for, or for the changed collection. */
  ghost predicate Heir(s: Settings, w: World, change: Change, generation: Generation) {
    || (Head(s) == Head(w.disk) && Settled(s) == Settled(w.disk))
    || (Head(s) == Head(w.view) && Settled(s) == Settled(w.view))
    || (Head(s) == generation && Settled(w.view).Some? && Settled(s) == Some(Changed(Settled(w.view).value, change)))
  }

  /** A file that persisting has come to is one that the mutation may leave. */
  lemma ReachedIsHeir(w: World, now: World, s: Settings, change: Change, recovery: Generation, generation: Generation)
    requires Recoverable(w.disk) && Recoverable(w.view) && Recoverable(now.disk) && now.view == w.view
             && Loadable(w.view)
    requires SameMeaning(now.disk, w.disk) || SameMeaning(now.disk, w.view)
    requires Reached(s, now.disk, w.view, recovery, Changed(w.view.root.manifest.value.activeTag, change), generation)
    ensures Heir(s, w, change, generation) && ManifestFits(s) && (recovery == Head(w.view) ==> Recoverable(s))
  {
    assert Settled(w.view) == Some(w.view.root.manifest.value.activeTag);
  }

  /** What one recovery may do when `errors` stores and key reads reported failure and `lazy`
      says that a sync reported success without storing. Only a file found or made coherent
      clears the latch; a promotion does not. */
  ghost predicate RecoverEffect(w: World, latched: bool, w': World, latched': bool, r: Run<RecoveryResult>,
                                errors: int, lazy: bool) {
    && errors >= 0
    && Recoverable(w'.disk) && Recoverable(w'.view)
    && (r.Crashed? || (errors == 0 && !lazy && w.view == w.disk) ==> w'.view == w'.disk)
    && (Settled(w'.disk) == Settled(w.disk) || Settled(w'.disk) == Settled(w.view))
    && (Settled(w'.view) == Settled(w.view) || (r.Crashed? && Settled(w'.view) == Settled(w.disk)))
    && (r.Finished? && (r.value == NotNeeded || r.value == Recovered) ==>
          && (lazy || w'.view == w'.disk) && Loadable(w'.view)
          && SettledGeneration(w'.view) == Some(Head(w'.view)) == SettledGeneration(w.view)
          && Settled(w'.view) == Settled(w.view))
    && (r.Finished? && r.value == NotNeeded ==> Head(w'.view) == Head(w.view) && !latched')
    && (r.Finished? && r.value == Recovered ==>
          Head(w'.view) != Head(w.view)
          && latched' == (latched && PointersMatch(w.view.root, w.view.root.manifest.value)))
    && (r.Finished? && r.value == RecoveryIndeterminate ==> latched')
    && (r.Finished? && r.value in {Unavailable, ReadOnlyFutureSchema, RecoveryError} ==> latched' == latched)
    && (r.Finished? && errors == 0 ==>
          if OfNewerSchema(w.view) then r.value == ReadOnlyFutureSchema
          else r.value in {NotNeeded, Recovered})
    && (forall s :: s in {w'.disk, w'.view} ==>
          s.root.manifest == w.disk.root.manifest || s.root.manifest == w.view.root.manifest || Promoted(s, w.view))
  }

  /** The active generation was written by a newer program. */
  predicate OfNewerSchema(s: Settings) {
    s.root.manifest.Some? && s.root.manifest.value.active in s.generations
    && s.generations[s.root.manifest.value.active].Newer?
  }

  /** What recovery leaves to a newer program: the generation that it looks at first is of a
      newer schema, the recovery one where the pointers agree with the manifest. */
  predicate Foreign(s: Settings)
    requires ManifestShape(s)
  {
    var m := s.root.manifest.value;
    if PointersMatch(s.root, m) then m.recovery.Some? && s.generations[m.recovery.value].Newer?
    else s.generations[m.active].Newer?
  }

  /** The manifest now names as active what was the recovery generation. */
  ghost predicate Promoted(s: Settings, s': Settings) {
    s'.root.manifest.Some? && s'.root.manifest.value.recovery == Some(Head(s)) && SettledGeneration(s') == Some(Head(s))
  }

  /** A persist with an explicit recovery generation, cut after its pointer write, can be
      undone exactly when that recovery generation is the one the manifest names as active. */
  lemma OverrideTear(s: Settings, recovery: Generation, generation: Generation, collection: Collection)
    requires Recoverable(s) && PointersMatch(s.root, s.root.manifest.value)
    requires SettledGeneration(s) == Some(Head(s)) && generation !in s.generations
    ensures var torn := Settings(s.root.(active := generation, recovery := Some(recovery)),
                                 s.generations[generation := Readable(collection)]);
            && ManifestFits(torn) && Settled(torn) == Settled(s)
            && (Recoverable(torn) <==> recovery == Head(s))
  {
  }

  datatype Call =
    | Mutating(change: Change, expected: Option<Generation>, generation: Generation, saved: Run<SaveResult>,
               errors: int, lazy: bool)
    | Recovering(recovered: Run<RecoveryResult>, errors: int, lazy: bool)

  /** The two files and the latch of the running process. */
  datatype Point = Point(world: World, latched: bool)

  ghost predicate Allowed(p: Point, call: Call, p': Point) {
    && Recoverable(p.world.disk) && Recoverable(p.world.view)
    && match call {
      case Mutating(change, expected, generation, saved, errors, lazy) =>
        && generation !in p.world.disk.generations && generation !in p.world.view.generations
        && MutateEffect(p.world, p.latched, p'.world, p'.latched, change, expected, None, generation, saved, errors,
                        lazy)
      case Recovering(recovered, errors, lazy) =>
        RecoverEffect(p.world, p.latched, p'.world, p'.latched, recovered, errors, lazy)
    }
  }

  /** Any sequence of mutations and recoveries, each of which may have failed, or been cut
      short by a crash. */
  ghost predicate IsRun(points: seq<Point>, calls: seq<Call>) {
    |points| == |calls| + 1 && forall i {:trigger StepAt(points, calls, i)} :: 0 <= i < |calls| ==>
      StepAt(points, calls, i)
  }

  ghost predicate StepAt(points: seq<Point>, calls: seq<Call>, i: int)
    requires |points| == |calls| + 1 && 0 <= i < |calls|
  {
    Allowed(points[i], calls[i], points[i + 1])
  }

  /** What a call changes in the register, if it takes place. */
  ghost function Effect(call: Call): Collection -> Collection {
    if call.Mutating? then (c: Collection) => Changed(c, call.change) else (c: Collection) => c
  }

  ghost function Effects(calls: seq<Call>): seq<Collection -> Collection> {
    seq(|calls|, i requires 0 <= i < |calls| => Effect(calls[i]))
  }

  /** A successful mutation that was stored. */
  ghost predicate Confirmed(call: Call) {
    call.Mutating? && call.saved == Finished(Success) && !call.lazy
  }

  /** A mutation that was refused, with whatever it had written taken back. */
  ghost predicate Refused(call: Call) {
    call.Mutating? && call.saved.Finished? && call.saved.value != Success && call.saved.value != IndeterminateState
    && !call.lazy
  }

  /** What a file stands for; a file that stands for nothing is none of a run's. */
  ghost function Held(s: Settings): Collection {
    if Settled(s).Some? then Settled(s).value else Collection(map[], Home)
  }

  /** How a file or memory came about: from the file or the memory before the call, with its change or without. */
  ghost function OriginOf(p: Point, call: Call, after: Settings, known: bool): Origin {
    if known && call.Mutating? && call.saved == Finished(Success) then Origin(true, true)
    else if Settled(after) == Settled(p.world.view) then Origin(true, false)
    else if Settled(after) == Settled(p.world.disk) then Origin(false, false)
    else Origin(true, true)
  }

  ghost function DiskOrigin(p: Point, call: Call, p': Point): Origin {
    OriginOf(p, call, p'.world.disk, !call.lazy)
  }

  ghost function ViewOrigin(p: Point, call: Call, p': Point): Origin {
    OriginOf(p, call, p'.world.view, true)
  }

  /** One call, whatever fails in it, moves file and memory by its change or not at all. */
  lemma StepIsAtomic(p: Point, call: Call, p': Point)
    requires Allowed(p, call, p')
    ensures Stands(p) && Stands(p')
    ensures var disk, view := Held(p.world.disk), Held(p.world.view);
            && Held(p'.world.disk) == Came(DiskOrigin(p, call, p'), disk, view, Effect(call))
            && Held(p'.world.view) == Came(ViewOrigin(p, call, p'), disk, view, Effect(call))
    ensures call.Mutating? && call.saved == Finished(Success) ==> ViewOrigin(p, call, p').took
    ensures Confirmed(call) ==> DiskOrigin(p, call, p').took
    ensures Refused(call) ==> !DiskOrigin(p, call, p').took && !ViewOrigin(p, call, p').took
    ensures p.world.view == p.world.disk && call.errors == 0 && !call.lazy ==> p'.world.view == p'.world.disk
  {
  }

  /** File and memory both stand for a collection. */
  ghost predicate Stands(p: Point) {
    Settled(p.world.disk).Some? && Settled(p.world.view).Some?
  }

  ghost function Disks(points: seq<Point>): seq<Collection> {
    seq(|points|, i requires 0 <= i < |points| => Held(points[i].world.disk))
  }

  ghost function Views(points: seq<Point>): seq<Collection> {
    seq(|points|, i requires 0 <= i < |points| => Held(points[i].world.view))
  }

  ghost function DiskOrigins(points: seq<Point>, calls: seq<Call>): seq<Origin>
    requires |points| == |calls| + 1
  {
    seq(|calls|, i requires 0 <= i < |calls| => DiskOrigin(points[i], calls[i], points[i + 1]))
  }

  ghost function ViewOrigins(points: seq<Point>, calls: seq<Call>): seq<Origin>
    requires |points| == |calls| + 1
  {
    seq(|calls|, i requires 0 <= i < |calls| => ViewOrigin(points[i], calls[i], points[i + 1]))
  }

  /** `StepIsAtomic` for one call of a run. */
  lemma RunStep(points: seq<Point>, calls: seq<Call>, i: nat)
    requires IsRun(points, calls) && i < |calls|
    ensures Stands(points[i]) && Stands(points[i + 1])
    ensures var disk, view := Disks(points), Views(points);
            var a, b := DiskOrigins(points, calls)[i], ViewOrigins(points, calls)[i];
            && disk[i + 1] == Came(a, disk[i], view[i], Effects(calls)[i])
            && view[i + 1] == Came(b, disk[i], view[i], Effects(calls)[i])
            && (Confirmed(calls[i]) ==> a.took && b.took)
            && (Refused(calls[i]) ==> !a.took && !b.took)
    ensures points[i].world.view == points[i].world.disk && calls[i].errors == 0 && !calls[i].lazy ==>
              points[i + 1].world.view == points[i + 1].world.disk
  {
    assert StepAt(points, calls, i);
    StepIsAtomic(points[i], calls[i], points[i + 1]);
  }

  lemma RunStands(points: seq<Point>, calls: seq<Call>, i: nat)
    requires IsRun(points, calls) && Stands(points[0]) && i <= |calls|
    ensures Stands(points[i])
  {
    if i > 0 {
      RunStep(points, calls, i - 1);
    }
  }

  /** Over every run, whatever fails, is cut short or is reported without being stored, both
      the file and the memory of the process stand for the content of an atomic register. A
      mutation that answered Success and was stored took place in both; one that was refused
      took place in neither. */
  lemma MutationsAreAtomic(points: seq<Point>, calls: seq<Call>) returns (tookDisk: seq<bool>, tookView: seq<bool>)
    requires IsRun(points, calls) && Stands(points[0]) && Settled(points[0].world.disk) == Settled(points[0].world.view)
    ensures |tookDisk| == |tookView| == |calls|
    ensures Settled(points[|calls|].world.disk) == Some(Applied(Held(points[0].world.disk), Effects(calls), tookDisk))
    ensures Settled(points[|calls|].world.view) == Some(Applied(Held(points[0].world.disk), Effects(calls), tookView))
    ensures forall k :: 0 <= k < |calls| && Confirmed(calls[k]) ==> tookDisk[k] && tookView[k]
    ensures forall k :: 0 <= k < |calls| && Refused(calls[k]) ==> !tookDisk[k] && !tookView[k]
  {
    var disk, view, a, b := Disks(points), Views(points), DiskOrigins(points, calls), ViewOrigins(points, calls);
    forall i | 0 <= i < |calls|
      ensures disk[i + 1] == Came(a[i], disk[i], view[i], Effects(calls)[i])
      ensures view[i + 1] == Came(b[i], disk[i], view[i], Effects(calls)[i])
      ensures Confirmed(calls[i]) ==> a[i].took && b[i].took
      ensures Refused(calls[i]) ==> !a[i].took && !b[i].took
    {
      RunStep(points, calls, i);
    }
    tookDisk, tookView := TwoCopies(disk, view, Effects(calls), a, b);
    RunStands(points, calls, |calls|);
  }

  lemma {:induction false} InStep(points: seq<Point>, calls: seq<Call>, j: nat)
    requires IsRun(points, calls) && points[0].world.view == points[0].world.disk && j <= |calls|
    requires forall i :: 0 <= i < |calls| ==> calls[i].errors == 0 && !calls[i].lazy
    ensures points[j].world.view == points[j].world.disk
  {
    if j > 0 {
      InStep(points, calls, j - 1);
      RunStep(points, calls, j - 1);
    }
  }

  /** Where nothing fails, whatever the crashes and promotions, one choice accounts for every
      point of the run, and a mutation that ended took place exactly when it answered Success. */
  lemma ErrorFreeRuns(points: seq<Point>, calls: seq<Call>) returns (took: seq<bool>)
    requires IsRun(points, calls) && Stands(points[0]) && points[0].world.view == points[0].world.disk
    requires forall i :: 0 <= i < |calls| ==> calls[i].errors == 0 && !calls[i].lazy
    ensures |took| == |calls|
    ensures forall k :: 0 <= k < |calls| && calls[k].Mutating? && calls[k].saved.Finished? ==>
              took[k] == (calls[k].saved.value == Success)
    ensures forall j :: 0 <= j <= |calls| ==>
                          Settled(points[j].world.disk) ==
                          Some(Applied(Held(points[0].world.disk), Effects(calls)[..j], took[..j]))
  {
    var held, origins := Disks(points), DiskOrigins(points, calls);
    took := seq(|calls|, i requires 0 <= i < |calls| => origins[i].took);
    forall i | 0 <= i < |calls|
      ensures held[i + 1] == if took[i] then Effects(calls)[i](held[i]) else held[i]
      ensures calls[i].Mutating? && calls[i].saved.Finished? ==> took[i] == (calls[i].saved.value == Success)
    {
      NoFailure(points, calls, i);
    }
    forall j | 0 <= j <= |calls|
      ensures Settled(points[j].world.disk) == Some(Applied(held[0], Effects(calls)[..j], took[..j]))
    {
      OneCopy(held, Effects(calls), took, j);
      RunStands(points, calls, j);
    }
  }

  lemma NoFailure(points: seq<Point>, calls: seq<Call>, i: nat)
    requires IsRun(points, calls) && points[0].world.view == points[0].world.disk && i < |calls|
    requires forall i :: 0 <= i < |calls| ==> calls[i].errors == 0 && !calls[i].lazy
    ensures var held, took := Disks(points), DiskOrigins(points, calls)[i].took;
            && held[i + 1] == (if took then Effects(calls)[i](held[i]) else held[i])
            && (calls[i].Mutating? && calls[i].saved.Finished? ==> took == (calls[i].saved.value == Success))
  {
    InStep(points, calls, i);
    RunStep(points, calls, i);
    assert calls[i].Mutating? && calls[i].saved.Finished? ==> Confirmed(calls[i]) || Refused(calls[i]) by {
      assert StepAt(points, calls, i);
    }
  }

  ghost function Heads(p: Point): set<Generation> {
    {Head(p.world.disk), Head(p.world.view)}
  }

  /** No recovery of the run promotes, and every mutation gets a generation not seen before. */
  ghost predicate Unpromoted(points: seq<Point>, calls: seq<Call>)
    requires |points| == |calls| + 1
  {
    && (forall i :: 0 <= i < |calls| && calls[i].Recovering? ==> Heads(points[i + 1]) <= Heads(points[i]))
    && (forall i, j :: 0 <= i <= j < |calls| && calls[j].Mutating? ==> calls[j].generation !in Heads(points[i]))
  }

  /** After a successful mutation that was stored the generation it replaced never comes back. */
  lemma {:induction false} ReplacedForGood(points: seq<Point>, calls: seq<Call>, i: nat, j: nat)
    requires IsRun(points, calls) && Unpromoted(points, calls) && i < j <= |calls|
    requires Confirmed(calls[i])
    ensures Head(points[i].world.view) !in Heads(points[j])
    decreases j
  {
    assert StepAt(points, calls, j - 1);
    if j > i + 1 {
      ReplacedForGood(points, calls, i, j - 1);
    }
    assert calls[j - 1].Mutating? ==> calls[j - 1].generation !in Heads(points[i]);
  }

  /** Of the writers that start from one generation at most one succeeds. */
  lemma NoLostUpdates(points: seq<Point>, calls: seq<Call>, i: nat, j: nat)
    requires IsRun(points, calls) && Unpromoted(points, calls) && i < j < |calls|
    requires Confirmed(calls[i]) && calls[i].expected.Some?
    requires calls[j].Mutating? && calls[j].saved == Finished(Success) && calls[j].expected.Some?
    ensures calls[i].expected != calls[j].expected
    ensures Stands(points[i])
            && Settled(points[i + 1].world.disk) == Some(Changed(Settled(points[i].world.view).value, calls[i].change))
  {
    assert StepAt(points, calls, i) && StepAt(points, calls, j);
    StepIsAtomic(points[i], calls[i], points[i + 1]);
    ReplacedForGood(points, calls, i, j);
  }

  /** Recoveries that found or made the file coherent: these clear the latch. A promotion, a
      refusal and a failure do not. */
  ghost predicate Clears(p: Point, call: Call) {
    call.Recovering? && call.recovered.Finished?
    && (call.recovered.value == NotNeeded
        || (call.recovered.value == Recovered && p.world.view.root.manifest.Some?
            && !PointersMatch(p.world.view.root, p.world.view.root.manifest.value)))
  }

  /** After an indeterminate write no mutation of that process succeeds until a recovery clears
      the latch, whatever other recoveries answer meanwhile; and clearing recoveries do clear it. */
  lemma {:induction false} LatchHolds(points: seq<Point>, calls: seq<Call>, i: nat, j: nat)
    requires IsRun(points, calls) && i < j <= |calls|
    requires calls[i].Mutating? && calls[i].saved == Finished(IndeterminateState)
    requires forall k :: i < k < j ==>
               (if calls[k].Mutating? then calls[k].saved.Finished? else calls[k].recovered.Finished?)
               && !Clears(points[k], calls[k])
    ensures points[j].latched && (j < |calls| && calls[j].Mutating? ==> calls[j].saved != Finished(Success))
    ensures j < |calls| && Clears(points[j], calls[j]) ==> !points[j + 1].latched
    decreases j
  {
    assert StepAt(points, calls, j - 1);
    assert j < |calls| ==> StepAt(points, calls, j);
    if j > i + 1 {
      LatchHolds(points, calls, i, j - 1);
    }
  }
}
