/**
  The settings save journal. A save changes nineteen public settings and one pairing
  secret that live in two stores without a common commit. The journal makes the change
  atomic: `Settled` says what a world (the two stores as a crash would leave them) will
  become once recovery has run, and every operation below either leaves `Settled` alone
  or moves it once, from the original configuration to the candidate.
*/
module SettingsJournal {
  import opened AtomicRegister
  import opened Crash
  import opened SettingsFields

  type Secret = seq<int>

  /** A configuration: the public fields and the pairing secret. */
  datatype Config = Config(fields: State, secret: Option<Secret>)

  datatype Journal = Journal(id: nat, original: State, candidate: State, applied: bool)

  datatype Capsule = Capsule(id: nat, original: State, candidate: State,
                             originalSecretPresent: bool, transition: bool, value: Option<Secret>)

  /** The settings file as far as the journal reads and writes it. */
  datatype Settings = Settings(fields: State, journal: Option<Journal>)

  /** The credential accounts. The commit marker authenticates one capsule. */
  datatype Credentials = Credentials(secret: Option<Secret>, capsule: Option<Capsule>, marker: Option<Capsule>)

  /** What survives a crash (`disk`, `accounts`) and what this process reads (`view`). */
  datatype World = World(disk: Settings, view: Settings, accounts: Credentials)

  datatype Recovery = NotNeeded | RecoveredOriginal | RecoveredCandidate | Blocked

  /** A write of the settings file that failed or was cut short keeps the journal group
      whole and any subset of the public fields. */
  predicate Torn(before: Settings, pending: Settings, after: Settings) {
    && (after.journal == before.journal || after.journal == pending.journal)
    && Mixed(after.fields, before.fields, pending.fields)
  }

  predicate Matches(journal: Journal, capsule: Capsule) {
    journal.id == capsule.id && journal.original == capsule.original && journal.candidate == capsule.candidate
  }

  /** Recovery's test that the secret swap has happened. */
  predicate SecretApplied(capsule: Capsule, secret: Option<Secret>) {
    if capsule.value.Some? then secret == capsule.value else capsule.originalSecretPresent && secret.None?
  }

  /** Recovery's test that it is to go forward. */
  predicate CandidateApplied(capsule: Capsule, accounts: Credentials, current: State) {
    if accounts.marker.Some? then current == capsule.candidate && accounts.secret == capsule.value
    else capsule.transition && SecretApplied(capsule, accounts.secret)
  }

  /** A capsule describes the save it belongs to, seen from the secret stored now. */
  ghost predicate Describes(capsule: Capsule, secret: Option<Secret>) {
    && ValidState(capsule.original) && ValidState(capsule.candidate)
    && (capsule.transition ==> capsule.value.None? ==> capsule.originalSecretPresent)
    && (secret != capsule.value ==> capsule.transition && secret.Some? == capsule.originalSecretPresent)
  }

  ghost predicate Fits(settings: Settings, accounts: Credentials) {
    && (accounts.capsule.Some? ==>
          var capsule := accounts.capsule.value;
          && Describes(capsule, accounts.secret)
          && Mixed(settings.fields, capsule.original, capsule.candidate)
          && (settings.journal.None? ==> settings.fields == Destination(accounts))
          && (accounts.marker.Some? ==>
                && accounts.marker.value == capsule
                && settings.fields == capsule.candidate
                && accounts.secret == capsule.value))
    && (accounts.capsule.None? && accounts.marker.Some? ==> settings.journal.None?)
  }

  ghost predicate Coherent(w: World) {
    && Fits(w.disk, w.accounts) && Fits(w.view, w.accounts)
    && (w.accounts.capsule.None? || w.disk.journal.None? || w.view.journal.None? ==> w.view.fields == w.disk.fields)
  }

  /** The fields that recovery goes to. */
  ghost function Destination(accounts: Credentials): State
    requires accounts.capsule.Some?
  {
    if GoesForward(accounts) then accounts.capsule.value.candidate else accounts.capsule.value.original
  }

  ghost predicate GoesForward(accounts: Credentials)
    requires accounts.capsule.Some?
  {
    accounts.marker.Some? || (accounts.capsule.value.transition && accounts.secret == accounts.capsule.value.value)
  }

  /** The configuration this world stands for: what it will hold once recovery has finished. */
  ghost function Settled(w: World): Config {
    if w.accounts.capsule.None? then Config(w.disk.fields, w.accounts.secret)
    else if GoesForward(w.accounts) then Config(w.accounts.capsule.value.candidate, w.accounts.secret)
    else Config(w.accounts.capsule.value.original, w.accounts.secret)
  }

  /** No journal, no capsule, no marker; memory and disk agree. */
  ghost predicate Clean(w: World) {
    w.view == w.disk && w.disk.journal.None? && w.accounts.capsule.None? && w.accounts.marker.None?
  }

  /** A journal that has lost its capsule, or is not that capsule's: the shape recovery refuses. */
  predicate Orphaned(settings: Settings, accounts: Credentials) {
    settings.journal.Some? && (accounts.capsule.None? || !Matches(settings.journal.value, accounts.capsule.value))
  }

  ghost predicate Recoverable(w: World) {
    !Orphaned(w.disk, w.accounts) && !Orphaned(w.view, w.accounts)
  }

  /** Nothing is pending and the journal is an orphan. */
  ghost predicate Stuck(w: World) {
    w.view == w.disk && Orphaned(w.disk, w.accounts)
  }

  /** What an attempt to write the settings file may do: succeed, report failure having stored
      any part of the pending change, or be cut short by a crash. Only a flush that reports
      success is known to be stored; a plain sync may leave any part of the change pending. */
  ghost predicate SyncMay(w: World, w': World, flush: bool, r: Run<bool>) {
    && w'.accounts == w.accounts && Torn(w.disk, w.view, w'.disk)
    && w'.view == (if r.Crashed? then w'.disk else w.view)
    && (flush && r.Finished? && r.value ==> w'.disk == w.view)
  }

  /** What an attempt to write, remove or swap one credential account may do. */
  ghost predicate UpdateMay(w: World, next: Credentials, w': World, r: Run<bool>) {
    && w'.disk == w.disk && (w'.accounts == w.accounts || w'.accounts == next)
    && w'.view == (if r.Crashed? then w'.disk else w.view)
    && (r.Finished? && r.value ==> w'.accounts == next)
  }

  /** An error is counted exactly when a call reports one. */
  ghost function Reported(r: Run<bool>): nat {
    if r.Finished? && !r.value then 1 else 0
  }

  class Store {
    var disk: Settings
    var view: Settings
    var accounts: Credentials
    /** The states whose encoding is within the 64 KiB that a journal may hold of each. */
    const writable: State -> bool
    /** How many stores and reads have reported an error so far. */
    ghost var errors: nat
    /** How many of them were reads of the credential accounts. */
    ghost var unread: nat

    constructor (settings: Settings, credentials: Credentials, writable: State -> bool)
      ensures disk == settings && view == settings && accounts == credentials && errors == unread == 0
              && this.writable == writable
    {
      disk, view, accounts, errors, unread := settings, settings, credentials, 0, 0;
      this.writable := writable;
    }

    ghost function Now(): World
      reads this
    {
      World(disk, view, accounts)
    }

    method Sync(flush: bool) returns (r: Run<bool>)
      modifies this`disk, this`view, this`errors
      ensures SyncMay(old(Now()), Now(), flush, r) && errors == old(errors) + Reported(r)
    {
      var whole: bool, dies: bool, claims: bool := *, *, *;
      if whole {
        disk := view;
        return Finished(true);
      }
      var torn: Settings := *;
      if Torn(disk, view, torn) {
        disk := torn;
      }
      if dies {
        view := disk;
        return Crashed;
      }
      if !flush && claims {
        return Finished(true);
      }
      errors := errors + 1;
      return Finished(false);
    }

    method Update(next: Credentials) returns (r: Run<bool>)
      modifies this`accounts, this`view, this`errors
      ensures UpdateMay(old(Now()), next, Now(), r) && errors == old(errors) + Reported(r)
    {
      var effective: bool, fails: bool, dies: bool := *, *, *;
      if effective || !(fails || dies) {
        accounts := next;
      }
      if dies {
        view := disk;
        return Crashed;
      }
      if fails {
        errors := errors + 1;
        return Finished(false);
      }
      return Finished(true);
    }

    /** Reading a credential account: readable, a read error, or a crash. */
    method Readable() returns (r: Run<bool>)
      modifies this
      ensures UpdateMay(old(Now()), old(accounts), Now(), r) && errors == old(errors) + Reported(r)
      ensures unread == old(unread) + Reported(r)
    {
      var fails: bool, dies: bool := *, *;
      if dies {
        view := disk;
        return Crashed;
      }
      if fails {
        errors, unread := errors + 1, unread + 1;
      }
      return Finished(!fails);
    }

    /** `apply`: write every public field, then sync. */
    method Apply(state: State) returns (r: Run<bool>)
      requires ValidState(state)
      modifies this
      ensures SyncMay(old(Now()).(view := old(view).(fields := state)), Now(), true, r)
              && errors == old(errors) + Reported(r)
    {
      var keys := PublicKeys();
      for i := 0 to |keys|
        invariant disk == old(disk) && accounts == old(accounts) && errors == old(errors)
        invariant view.journal == old(view).journal
        invariant forall j :: 0 <= j < i ==> At(view.fields, keys[j]) == At(state, keys[j])
      {
        view := view.(fields := Put(view.fields, state, keys[i]));
      }
      forall key
        ensures At(view.fields, key) == At(state, key)
      {
        assert key in keys;
      }
      SameEverywhere(view.fields, state);
      r := Sync(true);
    }

    /** `Sync` inside a coherent world. */
    method Write(flush: bool) returns (r: Run<bool>)
      requires Coherent(Now())
      modifies this`disk, this`view, this`errors
      ensures SyncMay(old(Now()), Now(), flush, r) && errors == old(errors) + Reported(r)
      ensures Coherent(Now()) && Settled(Now()) == old(Settled(Now()))
      ensures old(view).fields == old(disk).fields ==> disk.fields == old(disk).fields
    {
      r := Sync(flush);
      Recohere(old(Now()), Now());
      if old(view).fields == old(disk).fields {
        MixedOfSame(disk.fields, old(disk).fields);
      }
    }

    /** `loadJournal`: a plain refresh of the file first; a failed refresh reads as an invalid journal. */
    method LoadJournal() returns (r: Run<Option<Option<Journal>>>)
      requires Coherent(Now())
      modifies this`disk, this`view, this`errors
      ensures accounts == old(accounts) && Coherent(Now()) && Settled(Now()) == old(Settled(Now()))
      ensures disk.journal == old(disk).journal || disk.journal == old(view).journal
      ensures old(view).fields == old(disk).fields ==> disk.fields == old(disk).fields
      ensures r.Crashed? ==> view == disk && errors == old(errors)
      ensures r == Finished(None) ==> view == old(view) && errors == old(errors) + 1
      ensures r.Finished? && r.value.Some? ==>
                r.value.value == view.journal && view == old(view) && errors == old(errors)
    {
      var ok :- Write(false);
      return Finished(if ok then Some(view.journal) else None);
    }

    /** Whether there is no artifact of any transaction. */
    method Vacant() returns (r: Run<bool>)
      requires Coherent(Now())
      modifies this
      ensures Coherent(Now()) && Settled(Now()) == old(Settled(Now())) && errors >= old(errors)
              && accounts == old(accounts)
      ensures old(Recoverable(Now())) ==> Recoverable(Now())
      ensures r.Finished? ==> view == old(view)
      ensures old(view == disk) ==> view == disk == old(disk)
      ensures r.Finished? && r.value ==>
                && view.journal.None? && accounts.capsule.None? && accounts.marker.None? && errors == old(errors)
      ensures r.Finished? && !r.value ==>
                errors > old(errors) || old(view).journal.Some? || old(accounts).capsule.Some?
                || old(accounts).marker.Some?
    {
      var loaded :- LoadJournal();
      if loaded != Some(None) {
        return Finished(false);
      }
      var readable :- Readable();
      return Finished(readable && accounts.capsule.None? && accounts.marker.None?);
    }

    /** The test `begin` makes of both states. */
    predicate Storable(state: State) {
      ValidState(state) && writable(state)
    }

    /** `begin`: publish the capsule, then the journal. A failed journal write is undone by
        removing both, whatever those removals report. */
    method Begin(id: nat, original: State, candidate: State, secret: Option<Secret>) returns (r: Run<bool>)
      requires Coherent(Now()) && view.fields == original
      modifies this
      ensures Coherent(Now()) && Settled(Now()) == old(Settled(Now())) && errors >= old(errors)
      ensures old(Recoverable(Now())) && errors < old(errors) + 2 ==> Recoverable(Now())
      ensures r.Finished? && r.value ==>
                && Storable(original) && Storable(candidate) && errors == old(errors) && view == disk
                && view == Settings(original, Some(Journal(id, original, candidate, false)))
                && accounts == old(accounts).(capsule := Some(Capsule(id, original, candidate,
                                  old(accounts).secret.Some?, old(accounts).secret != secret, secret)))
                && accounts.marker.None?
      ensures r.Finished? && !r.value ==>
                || errors > old(errors) || !Storable(original) || !Storable(candidate)
                || old(view).journal.Some? || old(accounts).capsule.Some? || old(accounts).marker.Some?
      ensures old(Stuck(Now())) ==> Now() == old(Now()) && (r.Finished? ==> !r.value)
    {
      if !Storable(original) || !Storable(candidate) {
        return Finished(false);
      }
      var vacant :- Vacant();
      if !vacant {
        return Finished(false);
      }
      var capsule := Capsule(id, original, candidate, accounts.secret.Some?, accounts.secret != secret, secret);
      var written :- Update(accounts.(capsule := Some(capsule)));
      if !written {
        var _ :- Update(accounts.(capsule := None));
        return Finished(false);
      }
      r := WriteJournal(Journal(id, original, candidate, false));
    }

    /** The journal of a published capsule; a failure removes both, whatever that reports. */
    method WriteJournal(journal: Journal) returns (r: Run<bool>)
      requires Coherent(Now()) && view == Settings(journal.original, None) && disk.fields == view.fields
               && accounts.marker.None?
      requires accounts.capsule.Some? && Matches(journal, accounts.capsule.value) && !journal.applied
      requires !GoesForward(accounts)
      modifies this
      ensures Coherent(Now()) && Settled(Now()) == old(Settled(Now())) && errors >= old(errors)
      ensures old(Recoverable(Now())) && errors < old(errors) + 2 ==> Recoverable(Now())
      ensures r.Finished? && r.value ==>
                && errors == old(errors) && accounts == old(accounts)
                && view == disk == Settings(journal.original, Some(journal))
      ensures r.Finished? && !r.value ==> errors > old(errors)
    {
      view := view.(journal := Some(journal));
      var durable :- Write(true);
      if durable {
        return Finished(true);
      }
      view := view.(journal := None);
      var _ :- Write(true);
      var _ :- Update(accounts.(capsule := None));
      return Finished(false);
    }

    /** `markPublicApplied` */
    method MarkPublicApplied() returns (r: Run<bool>)
      requires Coherent(Now())
      modifies this
      ensures accounts == old(accounts) && Coherent(Now()) && Settled(Now()) == old(Settled(Now()))
              && errors >= old(errors)
      ensures old(view).fields == old(disk).fields ==> view.fields == disk.fields == old(disk).fields
      ensures old(Recoverable(Now())) ==> Recoverable(Now())
      ensures r.Finished? && r.value ==> view == disk && view.journal.Some? && errors == old(errors)
      ensures r.Finished? && !r.value && errors == old(errors) ==>
                old(view).journal.None? || old(view).journal.value.applied
    {
      var loaded :- LoadJournal();
      if loaded.None? || loaded.value.None? || loaded.value.value.applied {
        return Finished(false);
      }
      var journal := loaded.value.value;
      view := view.(journal := Some(journal.(applied := true)));
      var durable :- Write(true);
      if !durable {
        return Finished(false);
      }
      var verified :- LoadJournal();
      return Finished(verified == Some(Some(journal.(applied := true))));
    }

    /** `commit`: publish the marker, then remove journal, capsule and marker in that order. */
    method Commit() returns (r: Run<bool>)
      requires Coherent(Now())
      requires accounts.capsule.Some? ==>
                 && view.fields == disk.fields == accounts.capsule.value.candidate
                 && accounts.secret == accounts.capsule.value.value
      modifies this
      ensures Coherent(Now()) && errors >= old(errors)
      ensures Settled(Now()) == old(Settled(Now())) || Settled(Now()) == Config(old(disk).fields, old(accounts).secret)
      ensures old(Recoverable(Now())) ==> Recoverable(Now())
      ensures r.Finished? && r.value ==>
                && Clean(Now()) && Settled(Now()) == Config(old(disk).fields, old(accounts).secret)
                && errors == old(errors)
      ensures r.Finished? && !r.value ==> errors > old(errors) || old(accounts).capsule.None?
    {
      var readable :- Readable();
      if !readable || accounts.capsule.None? {
        return Finished(false);
      }
      var marked :- Update(accounts.(marker := accounts.capsule));
      if !marked {
        return Finished(false);
      }
      view := view.(journal := None);
      var durable :- Write(true);
      if !durable {
        return Finished(false);
      }
      var removed :- Update(accounts.(capsule := None));
      if !removed {
        return Finished(false);
      }
      r := Update(accounts.(marker := None));
    }

    /** `recover`: decide the direction from the artifacts and the stored secret, and go there. */
    method Recover() returns (r: Run<Recovery>)
      requires Coherent(Now())
      modifies this
      ensures Coherent(Now()) && RecoverEffect(old(Now()), Now(), r, errors - old(errors))
      ensures r == Finished(NotNeeded) ==> errors - old(errors) == unread - old(unread)
    {
      var loaded :- LoadJournal();
      if loaded.None? {
        return Finished(Blocked);
      }
      var journal := loaded.value;
      var readable :- Readable();
      if !readable {
        return Finished(if journal.None? then NotNeeded else Blocked);
      }
      if accounts.capsule.None? {
        if accounts.marker.Some? {
          if journal.Some? {
            return Finished(Blocked);
          }
          var removed :- Update(accounts.(marker := None));
          return Finished(if removed then NotNeeded else Blocked);
        }
        return Finished(if journal.None? then NotNeeded else Blocked);
      }
      var capsule := accounts.capsule.value;
      if (accounts.marker.Some? && accounts.marker.value != capsule)
         || (journal.Some? && !Matches(journal.value, capsule)) {
        return Finished(Blocked);
      }
      r := Decide(capsule, journal.Some?);
    }

    /** `recover` once capsule, marker and journal are known to belong together. */
    method Decide(capsule: Capsule, journaled: bool) returns (r: Run<Recovery>)
      requires Coherent(Now()) && accounts.capsule == Some(capsule) && journaled == view.journal.Some?
               && !Orphaned(view, accounts)
      modifies this
      ensures Coherent(Now()) && RecoverEffect(old(Now()), Now(), r, errors - old(errors))
      ensures r.Finished? ==> !r.value.NotNeeded?
    {
      var readable :- Readable();
      if !readable {
        return Finished(Blocked);
      }
      var captured :- Write(false);
      DirectionIsSettled(Now());
      if !ValidState(view.fields) || !Mixed(view.fields, capsule.original, capsule.candidate) {
        return Finished(Blocked);
      }
      var candidateApplied := CandidateApplied(capsule, accounts, view.fields);
      if accounts.marker.Some? && !candidateApplied {
        return Finished(Blocked);
      }
      r := Settle(capsule, journaled, candidateApplied);
    }

    /** `recover` once the direction is known: apply, then remove the artifacts. */
    method Settle(capsule: Capsule, journaled: bool, forward: bool) returns (r: Run<Recovery>)
      requires Coherent(Now()) && accounts.capsule == Some(capsule) && journaled == view.journal.Some?
               && !Orphaned(view, accounts)
      requires forward == GoesForward(accounts)
      modifies this
      ensures Coherent(Now()) && RecoverEffect(old(Now()), Now(), r, errors - old(errors))
      ensures r.Finished? ==> !r.value.NotNeeded?
    {
      var destination := if forward then capsule.candidate else capsule.original;
      label applying:
      var applied := Apply(destination);
      Recohere(old@applying(Now()).(view := old@applying(view).(fields := destination)), Now());
      if applied.Crashed? {
        return Crashed;
      }
      if !applied.value {
        return Finished(Blocked);
      }
      if forward {
        var done :- Commit();
        return Finished(if done then RecoveredCandidate else Blocked);
      }
      if journaled {
        view := view.(journal := None);
        var durable :- Write(true);
        if !durable {
          return Finished(Blocked);
        }
      }
      var removed :- Update(accounts.(capsule := None));
      return Finished(if removed then RecoveredOriginal else Blocked);
    }
  }

  datatype Saved = Success | Failed | ConcurrentModification

  /** What a save asks for: the edited fields over those there were, and the pairing code as
      the secret unless it is empty. */
  function Requested(before: State, edits: State, code: Secret): (c: Config)
    ensures code != [] ==> c.secret == Some(code)
    ensures code == [] ==> c.secret.None?
    ensures forall key :: At(c.fields, key) == if key in edits then Some(edits[key]) else At(before, key)
  {
    Config(before + edits, if code == [] then None else Some(code))
  }

  class AppConfig {
    const store: Store
    var loadedFields: State
    var loadedSecret: Option<Secret>
    var loadFailed: bool

    constructor (s: Store)
      ensures store == s && loadedFields == s.view.fields && loadedSecret == s.accounts.secret && !loadFailed
    {
      store, loadedFields, loadedSecret, loadFailed := s, s.view.fields, s.accounts.secret, false;
    }

    /** `saveSettingsWithResult`: `desired` holds the edited fields and `code` the edited pairing code. */
    method Save(id: nat, desired: State, code: Secret) returns (r: Run<Saved>)
      requires Coherent(store.Now()) && ValidState(desired)
      modifies this, store
      ensures Coherent(store.Now())
      ensures SaveEffect(old(store.Now()), store.Now(), Requested(old(store.view).fields, desired, code), r,
                         store.errors - old(store.errors))
      ensures r.Finished? && r.value.Success? ==>
                && store.accounts.secret == (if code == [] then None else Some(code))
                && (forall key :: At(store.disk.fields, key) ==
                                  if key in desired then Some(desired[key]) else At(old(store.view).fields, key))
      ensures r.Finished? && r.value.Failed? && !loadFailed ==> Settled(store.Now()) == old(Settled(store.Now()))
      ensures r.Finished? && r.value.Failed? && !loadFailed ==>
                || Config(store.view.fields, store.accounts.secret) == Settled(store.Now())
                || (store.view == old(store.view) && store.accounts == old(store.accounts))
      ensures r.Finished? && r.value.Success? ==>
                loadedFields == store.view.fields && loadedSecret == store.accounts.secret
      ensures r.Finished? && store.errors == old(store.errors) ==>
                && (old(loadFailed) ==> r.value.Failed?)
                && (r.value.ConcurrentModification? <==> !old(loadFailed) && old(Stale()))
                && (old(Recoverable(store.Now())) ==> loadFailed == old(loadFailed))
      ensures store.errors == old(store.errors) && old(Clean(store.Now())) && !old(loadFailed)
              && old(loadedFields) == old(store.view).fields && old(loadedSecret) == old(store.accounts).secret
              && r.Finished? ==>
                (r.value.Success? <==>
                   store.Storable(old(store.view).fields) && store.Storable(old(store.view).fields + desired))
    {
      var refused :- Precheck();
      if refused.Some? {
        return Finished(refused.value);
      }
      r := SaveChecked(id, store.view.fields, Requested(store.view.fields, desired, code));
    }

    /** A save from the journal on. */
    method SaveChecked(id: nat, original: State, wanted: Config) returns (r: Run<Saved>)
      requires Coherent(store.Now()) && store.view.fields == original && !loadFailed
      modifies this, store
      ensures Coherent(store.Now())
      ensures SaveEffect(old(store.Now()), store.Now(), wanted, r, store.errors - old(store.errors))
      ensures r.Finished? ==> !r.value.ConcurrentModification?
      ensures r.Finished? && r.value.Failed? && !loadFailed ==>
                Settled(store.Now()) == old(Settled(store.Now()))
                && Config(store.view.fields, store.accounts.secret) == Settled(store.Now())
      ensures r.Finished? && r.value.Success? ==>
                loadedFields == store.view.fields && loadedSecret == store.accounts.secret
      ensures r.Finished? && store.errors == old(store.errors) ==>
                && (old(Recoverable(store.Now())) ==> !loadFailed)
                && (old(Clean(store.Now())) ==>
                      (r.value.Success? <==> store.Storable(original) && store.Storable(wanted.fields)))
    {
      var staged := Stage(id, original, wanted.fields, wanted.secret);
      if staged.Crashed? {
        return Crashed;
      }
      if !staged.value {
        var recovered :- store.Recover();
        if recovered.Blocked? {
          loadFailed := true;
        }
        return Finished(Failed);
      }
      r := Swap(wanted.fields, wanted.secret);
    }

    /** The stores hold something else than what was loaded. */
    ghost predicate Stale()
      reads this, store
    {
      store.view.fields != loadedFields || store.accounts.secret != loadedSecret
    }

    /** What a save does before it begins; `Some` is its answer. */
    method Precheck() returns (r: Run<Option<Saved>>)
      requires Coherent(store.Now())
      modifies store
      ensures Coherent(store.Now()) && Settled(store.Now()) == old(Settled(store.Now()))
              && store.accounts == old(store.accounts)
      ensures store.errors >= old(store.errors) && (r.Finished? ==> store.view == old(store.view))
      ensures old(Recoverable(store.Now())) ==> Recoverable(store.Now())
      ensures old(store.view == store.disk) ==> store.Now() == old(store.Now())
      ensures r.Finished? && r.value.Some? ==> !r.value.value.Success?
      ensures r == Finished(Some(Failed)) ==> loadFailed || store.errors > old(store.errors)
      ensures r == Finished(Some(ConcurrentModification)) ==> !loadFailed && Stale()
      ensures r == Finished(None) ==> !loadFailed && !Stale() && store.errors == old(store.errors)
    {
      if loadFailed {
        return Finished(Some(Failed));
      }
      var synced :- store.Write(false);
      if !synced {
        return Finished(Some(Failed));
      }
      if store.view.fields != loadedFields {
        return Finished(Some(ConcurrentModification));
      }
      var readable :- store.Readable();
      if !readable {
        return Finished(Some(Failed));
      }
      return Finished(if store.accounts.secret != loadedSecret then Some(ConcurrentModification) else None);
    }

    /** The secret swap of a staged save, and what follows from its answer. */
    method Swap(candidate: State, secret: Option<Secret>) returns (r: Run<Saved>)
      requires Coherent(store.Now()) && Recoverable(store.Now()) && store.accounts.capsule.Some?
               && store.accounts.marker.None?
      requires store.view == store.disk && store.view.journal.Some?
               && store.view.fields == candidate == store.accounts.capsule.value.candidate
      requires store.accounts.capsule.value.value == secret
      requires store.accounts.secret == secret || store.accounts.capsule.value.transition
      modifies this, store
      ensures Coherent(store.Now())
      ensures SaveEffect(old(store.Now()), store.Now(), Config(candidate, secret), r, store.errors - old(store.errors))
      ensures r.Finished? && r.value.Failed? ==> loadFailed && store.errors > old(store.errors)
      ensures r.Finished? && !r.value.Failed? ==> r.value.Success? && loadFailed == old(loadFailed)
      ensures r.Finished? && r.value.Success? ==>
                loadedFields == store.view.fields && loadedSecret == store.accounts.secret
    {
      var swapped :- store.Update(store.accounts.(secret := secret));
      if swapped {
        var committed :- store.Commit();
        if committed {
          loadedFields, loadedSecret := candidate, secret;
          return Finished(Success);
        }
        loadFailed := true;
        return Finished(Failed);
      }
      var recovered :- store.Recover();
      if recovered.RecoveredCandidate? {
        loadedFields, loadedSecret := candidate, secret;
        return Finished(Success);
      }
      loadFailed := true;
      return Finished(Failed);
    }

    /** The steps before the secret swap: begin, apply the candidate fields, mark them applied. */
    method Stage(id: nat, original: State, candidate: State, secret: Option<Secret>) returns (r: Run<bool>)
      requires Coherent(store.Now()) && store.view.fields == original
      modifies store
      ensures Coherent(store.Now()) && Settled(store.Now()) == old(Settled(store.Now()))
              && store.errors >= old(store.errors)
      ensures old(Recoverable(store.Now())) && store.errors < old(store.errors) + 2 ==> Recoverable(store.Now())
      ensures old(Stuck(store.Now())) ==> store.Now() == old(store.Now()) && (r.Finished? ==> !r.value)
      ensures r.Finished? && r.value ==>
                && store.errors == old(store.errors) && store.Storable(original) && store.Storable(candidate)
                && Recoverable(store.Now())
                && store.view == store.disk && store.view.journal.Some? && store.view.fields == candidate
                && (var before := old(store.accounts);
                    store.accounts == before.(capsule := Some(
                      Capsule(id, original, candidate, before.secret.Some?, before.secret != secret, secret))))
                && store.accounts.marker.None?
      ensures r.Finished? && !r.value ==>
                || store.errors > old(store.errors) || !store.Storable(original) || !store.Storable(candidate)
                || old(store.view).journal.Some? || old(store.accounts).capsule.Some?
                || old(store.accounts).marker.Some?
    {
      var begun :- store.Begin(id, original, candidate, secret);
      if !begun {
        return Finished(false);
      }
      label applying:
      var applied := store.Apply(candidate);
      Recohere(old@applying(store.Now()).(view := old@applying(store.view).(fields := candidate)), store.Now());
      if applied.Crashed? {
        return Crashed;
      }
      if !applied.value {
        return Finished(false);
      }
      r := store.MarkPublicApplied();
    }
  }

  /** What one save may do to the configuration the stores stand for when `errors` stores and
      reads reported an error during it. */
  ghost predicate SaveEffect(w: World, w': World, candidate: Config, r: Run<Saved>, errors: int) {
    && errors >= 0
    && (Recoverable(w) && errors < 2 ==> Recoverable(w'))
    && (Settled(w') == Settled(w) || Settled(w') == candidate)
    && (r.Finished? && r.value.Success? ==> Settled(w') == candidate && Clean(w'))
    && (r.Finished? && r.value.ConcurrentModification? ==> Settled(w') == Settled(w))
    && (Stuck(w) ==> w' == w && (r.Finished? ==> !r.value.Success?))
  }

  /** What one recovery may do when `errors` stores and reads reported an error during it. */
  ghost predicate RecoverEffect(w: World, w': World, r: Run<Recovery>, errors: int) {
    && errors >= 0
    && Settled(w') == Settled(w)
    && (r.Finished? && r.value.RecoveredOriginal? ==> Clean(w') && w.accounts.capsule.Some? && !GoesForward(w.accounts))
    && (r.Finished? && r.value.RecoveredCandidate? ==> Clean(w') && w.accounts.capsule.Some? && GoesForward(w.accounts))
    && (r.Finished? && r.value.NotNeeded? ==> Config(w'.view.fields, w'.accounts.secret) == Settled(w'))
    && (r.Finished? && r.value.NotNeeded? && errors == 0 ==>
          w.accounts.capsule.None? && w'.accounts.capsule.None? && (Clean(w') <==> w'.disk.journal.None?))
    && (r.Finished? && errors == 0 && !Orphaned(w.view, w.accounts) && w.accounts.capsule.Some? ==>
          r.value == if GoesForward(w.accounts) then RecoveredCandidate else RecoveredOriginal)
    && (r.Finished? && errors == 0 ==> (r.value.Blocked? <==> Orphaned(w.view, w.accounts)))
    && (Recoverable(w) ==> Recoverable(w'))
    && (Stuck(w) ==> w' == w && (r.Finished? ==> r.value.Blocked?))
  }

  /** A torn or complete write of the settings file, possibly followed by a restart, keeps a
      coherent world coherent and moves nothing. */
  lemma Recohere(w: World, w': World)
    requires Coherent(w)
    requires w'.accounts == w.accounts
    requires Torn(w.disk, w.view, w'.disk)
    requires w'.view == w.view || w'.view == w'.disk
    ensures Coherent(w') && Settled(w') == Settled(w)
  {
    if w.accounts.capsule.None? || w.accounts.marker.Some? || w.disk.journal.None? || w.view.journal.None? {
      MixedOfSame(w'.disk.fields, w.disk.fields);
    }
  }

  /** Recovery's tests pass in a coherent world, and tell the settled direction. */
  lemma DirectionIsSettled(w: World)
    requires Coherent(w) && w.accounts.capsule.Some?
    ensures var capsule := w.accounts.capsule.value;
            && ValidState(w.view.fields) && Mixed(w.view.fields, capsule.original, capsule.candidate)
            && CandidateApplied(capsule, w.accounts, w.view.fields) == GoesForward(w.accounts)
  {
    MixedValid(w.view.fields, w.accounts.capsule.value.original, w.accounts.capsule.value.candidate);
  }

  /** A save has one commit point: the secret swap if the secret changes, else the marker. */
  lemma OneCommitPoint(w: World)
    requires Coherent(w) && w.accounts.capsule.Some?
    ensures var capsule := w.accounts.capsule.value;
            && GoesForward(w.accounts) == (if capsule.transition then SecretApplied(capsule, w.accounts.secret)
                                           else w.accounts.marker.Some?)
            && Settled(w) == (if GoesForward(w.accounts) then Config(capsule.candidate, capsule.value)
                              else Config(capsule.original, w.accounts.secret))
            && (!GoesForward(w.accounts) && capsule.transition ==> w.accounts.secret != capsule.value)
  {
  }

  /** One call of a run, with its answer and the number of errors reported during it. */
  datatype Call =
    | Saving(edits: State, code: Secret, saved: Run<Saved>, errors: int)
    | Recovering(recovered: Run<Recovery>, errors: int)

  ghost predicate Allowed(w: World, call: Call, w': World) {
    && Coherent(w) && Coherent(w')
    && match call {
      case Saving(edits, code, saved, errors) =>
        SaveEffect(w, w', Requested(w.view.fields, edits, code), saved, errors)
      case Recovering(recovered, errors) => RecoverEffect(w, w', recovered, errors)
    }
  }

  /** Any sequence of saves and recoveries, each of which may have been cut short by a crash. */
  ghost predicate IsRun(worlds: seq<World>, calls: seq<Call>) {
    |worlds| == |calls| + 1 && forall i :: 0 <= i < |calls| ==> Allowed(worlds[i], calls[i], worlds[i + 1])
  }

  /** What each call of a run asks for, given the fields that it finds. */
  ghost function Writes(worlds: seq<World>, calls: seq<Call>): seq<Option<Config>>
    requires |worlds| == |calls| + 1
  {
    seq(|calls|, i requires 0 <= i < |calls| =>
      if calls[i].Saving? then Some(Requested(worlds[i].view.fields, calls[i].edits, calls[i].code)) else None)
  }

  /** Whatever the crashes, at every point of a run the stores stand for what an atomic register
      holds, for one choice of which saves took place; a save that answered Success did, one
      that answered ConcurrentModification did not. */
  lemma SavesAreAtomic(worlds: seq<World>, calls: seq<Call>) returns (took: seq<bool>)
    requires IsRun(worlds, calls)
    ensures |took| == |calls|
    ensures forall k :: 0 <= k < |calls| && calls[k].Saving? && calls[k].saved == Finished(Success) ==> took[k]
    ensures forall k :: 0 <= k < |calls| && calls[k].Saving? && calls[k].saved == Finished(ConcurrentModification) ==>
              !took[k]
    ensures forall j :: 0 <= j <= |calls| ==>
                          Settled(worlds[j]) == Register(Settled(worlds[0]), Writes(worlds, calls)[..j], took[..j])
    ensures forall k :: 0 <= k < |calls| && calls[k].Saving? && calls[k].saved == Finished(Success) ==>
              && Clean(worlds[k + 1])
              && worlds[k + 1].accounts.secret == (if calls[k].code == [] then None else Some(calls[k].code))
              && forall key :: At(worlds[k + 1].disk.fields, key) ==
                               if key in calls[k].edits then Some(calls[k].edits[key])
                               else At(worlds[k].view.fields, key)
  {
    var held := seq(|worlds|, i requires 0 <= i < |worlds| => Settled(worlds[i]));
    forall i | 0 <= i < |calls|
      ensures held[i + 1] == held[i] || Writes(worlds, calls)[i] == Some(held[i + 1])
    {
      assert Allowed(worlds[i], calls[i], worlds[i + 1]);
    }
    took := Linearize(held, Writes(worlds, calls),
                      set k: nat | k < |calls| && calls[k].Saving? && calls[k].saved == Finished(Success),
                      set k: nat | k < |calls| && calls[k].Saving?
                                   && calls[k].saved == Finished(ConcurrentModification));
  }

  /** Once past the commit point, no sequence of crashes and recoveries goes back, and the
      first recovery that completes leaves exactly that configuration and no artifact. */
  lemma {:induction false} RecoveryIsStable(worlds: seq<World>, calls: seq<Call>)
    requires IsRun(worlds, calls) && calls != [] && forall call <- calls :: call.Recovering?
    ensures Settled(worlds[|calls|]) == Settled(worlds[0]) && (Recoverable(worlds[0]) ==> Recoverable(worlds[|calls|]))
    ensures var last, end := calls[|calls| - 1], worlds[|calls|];
            && last.recovered.Finished?
            && (|| last.recovered.value.RecoveredOriginal?
                || last.recovered.value.RecoveredCandidate?
                || (last.recovered.value.NotNeeded? && last.errors == 0 && Recoverable(worlds[0]))) ==>
              Clean(end) && Config(end.disk.fields, end.accounts.secret) == Settled(worlds[0])
    ensures var last, end := calls[|calls| - 1], worlds[|calls|];
            last.recovered == Finished(NotNeeded) ==> Config(end.view.fields, end.accounts.secret) == Settled(worlds[0])
  {
    var n := |calls| - 1;
    assert calls[n] in calls && Allowed(worlds[n], calls[n], worlds[n + 1]);
    if n > 0 {
      RecoveryIsStable(worlds[..n + 1], calls[..n]);
    }
  }

  /** If no save of the run reports two errors, recovery is never refused: it is Blocked only
      when a store or read reported an error during that very recovery. */
  lemma {:induction false} NeverBlocked(worlds: seq<World>, calls: seq<Call>)
    requires IsRun(worlds, calls) && Recoverable(worlds[0])
    requires forall call <- calls :: call.Saving? ==> call.errors < 2
    ensures Recoverable(worlds[|calls|])
    ensures forall k :: 0 <= k < |calls| && calls[k].Recovering? && calls[k].recovered == Finished(Blocked) ==>
              calls[k].errors > 0
  {
    if calls != [] {
      var n := |calls| - 1;
      NeverBlocked(worlds[..n + 1], calls[..n]);
      assert Allowed(worlds[n], calls[n], worlds[n + 1]);
    }
  }

  /** The bound of two is exact: a journal write that is stored but reported as failed, a
      removal that fails, the capsule removal that follows, and a restart leave a journal
      without its capsule. */
  lemma TwoErrorsCanBlock(id: nat, original: State, candidate: State, secret: Option<Secret>)
      returns (begun: World, published: World, undone: World, removed: World, restarted: World)
    requires ValidState(original) && ValidState(candidate)
    ensures var capsule := Capsule(id, original, candidate, false, secret.Some?, secret);
            var journal := Some(Journal(id, original, candidate, false));
            var idle := World(Settings(original, None), Settings(original, None), Credentials(None, None, None));
            && Clean(idle)
            && UpdateMay(idle, idle.accounts.(capsule := Some(capsule)), begun, Finished(true))
            && SyncMay(begun.(view := Settings(original, journal)), published, true, Finished(false))
            && SyncMay(published.(view := Settings(original, None)), undone, true, Finished(false))
            && UpdateMay(undone, undone.accounts.(capsule := None), removed, Finished(true))
            && SyncMay(removed, restarted, false, Crashed)
            && Coherent(restarted) && Stuck(restarted)
  {
    var capsule := Capsule(id, original, candidate, false, secret.Some?, secret);
    var written := Settings(original, Some(Journal(id, original, candidate, false)));
    var plain := Settings(original, None);
    begun := World(plain, plain, Credentials(None, Some(capsule), None));
    published := World(written, written, begun.accounts);
    undone := World(written, plain, begun.accounts);
    removed := World(written, plain, Credentials(None, None, None));
    restarted := World(written, written, Credentials(None, None, None));
  }

  /** From there nothing the program does helps: over every run, whatever fails or dies, no
      world changes, every completed recovery is Blocked and no save succeeds. */
  lemma {:induction false} StuckForGood(worlds: seq<World>, calls: seq<Call>)
    requires IsRun(worlds, calls) && Stuck(worlds[0])
    ensures worlds[|calls|] == worlds[0]
    ensures forall k :: 0 <= k < |calls| && calls[k].Recovering? && calls[k].recovered.Finished? ==>
              calls[k].recovered.value.Blocked?
    ensures forall k :: 0 <= k < |calls| && calls[k].Saving? ==> calls[k].saved != Finished(Success)
  {
    if calls != [] {
      var n := |calls| - 1;
      StuckForGood(worlds[..n + 1], calls[..n]);
      assert Allowed(worlds[n], calls[n], worlds[n + 1]);
    }
  }
}
