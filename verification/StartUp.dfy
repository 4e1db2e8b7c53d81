/**
  How the profile controller finds the generation it starts with: it loads the store, and if
  the file is not valid it has it recovered and loads again. It goes on only if the recovery
  says that it recovered something.
*/
module StartUp {
  import opened Crash
  import opened ProfileStore

  /** `persist` was cut after its pointer write: the active generation is intact, the file does not load. */
  ghost predicate CutPersist(s: Settings) {
    SettledGeneration(s) == Some(Head(s)) && !Loadable(s)
  }

  /** The first part of `initialize`; `None` is a refusal. */
  method FindGeneration(store: Store) returns (r: Run<Option<Generation>>)
    requires Recoverable(store.disk) && Recoverable(store.view)
    modifies store
    ensures Recoverable(store.disk) && Recoverable(store.view) && store.errors >= old(store.errors)
    ensures r.Finished? ==> Settled(store.view) == old(Settled(store.view))
    ensures r.Finished? && r.value.Some? ==>
              Loadable(store.view) && r.value == Some(Head(store.view)) == old(SettledGeneration(store.view))
    ensures r.Finished? && store.errors == old(store.errors) ==>
              (r.value.None? <==> old(CutPersist(store.view) || OfNewerSchema(store.view)))
    ensures r.Finished? && store.errors == old(store.errors) && old(CutPersist(store.view)) ==>
              && Loadable(store.view) && Head(store.view) == old(Head(store.view))
              && (store.lazy || store.disk == store.view)
  {
    store.Load();
    if store.status == InvalidSchema {
      var recovered :- store.Recover();
      if recovered != Recovered {
        return Finished(None);
      }
      store.Load();
    }
    return Finished(if store.status == Loaded then Some(store.loaded.value.0) else None);
  }

  /** That this happens: the file that a crash between the two root writes of a mutation leaves
      stands for the old collection, and the next start is refused although recovery repairs
      it; only the start after that goes on. */
  lemma CutPersistArises(plan: Plan)
    requires Sound(plan, plan.before) && plan.recovery == Head(plan.before)
    ensures Recoverable(Pointed(plan)) && CutPersist(Pointed(plan)) && !OfNewerSchema(Pointed(plan))
    ensures Settled(Pointed(plan)) == Settled(plan.before)
  {
    PlanStages(plan);
  }
}
