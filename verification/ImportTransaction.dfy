/**
  The configuration import transaction: preferences, profiles and the pairing secret change
  together, guarded by five artifacts (prepare marker, old capsule, new capsule, journal,
  commit marker). `Settled` says which configuration the stores stand for. While both
  capsules are present without a marker they stand for the old capsule's configuration,
  whatever part of the candidate has been applied; the commit marker is the one write that
  moves them to the candidate.

  Authentication tags are taken to be injective, so a marker or a binding is modelled by the
  transaction it authenticates.
*/
module ImportTransaction {
  import opened AtomicRegister
  import opened Crash
  import opened SettingsFields

  type Secret = seq<int>

  /** The public part of a configuration. The profile collection is one value: its own store makes it atomic. */
  datatype Snapshot = Snapshot(preferences: State, profiles: nat)

  datatype Config = Config(snapshot: Snapshot, secret: Option<Secret>)

  datatype Tx = Tx(id: nat, original: Snapshot, candidate: Snapshot)

  datatype Capsule = Capsule(tx: Tx, snapshot: Snapshot, value: Option<Secret>)

  datatype Settings = Settings(snapshot: Snapshot, journal: Option<Tx>)

  datatype Credentials = Credentials(secret: Option<Secret>, oldCapsule: Option<Capsule>, newCapsule: Option<Capsule>,
                                     commit: Option<Tx>, prepare: Option<Tx>)

  datatype World = World(disk: Settings, view: Settings, accounts: Credentials)

  datatype Recovery = NotNeeded | Recovered | Blocked

  datatype Mutation = Success | ConcurrentModification | Failed | Indeterminate

  datatype Outcome =
    | Imported | JournalBeginFailed | PublicApplyFailed | SensitiveApplyFailed
    | VerificationFailed | IndeterminateState | RollbackFailed | JournalCommitFailed

  predicate TornSnapshot(before: Snapshot, pending: Snapshot, after: Snapshot) {
    && (after.profiles == before.profiles || after.profiles == pending.profiles)
    && Mixed(after.preferences, before.preferences, pending.preferences)
  }

  predicate Torn(before: Settings, pending: Settings, after: Settings) {
    && (after.journal == before.journal || after.journal == pending.journal)
    && TornSnapshot(before.snapshot, pending.snapshot, after.snapshot)
  }

  predicate OldFits(c: Option<Capsule>, tx: Tx) {
    c.Some? ==> c.value.tx == tx && c.value.snapshot == tx.original
  }

  predicate NewFits(c: Option<Capsule>, tx: Tx) {
    c.Some? ==> c.value.tx == tx && c.value.snapshot == tx.candidate
  }

  /** `validCapsulePair` */
  predicate ValidPair(older: Capsule, newer: Capsule) {
    older.tx == newer.tx && older.tx == Tx(older.tx.id, older.snapshot, newer.snapshot)
  }

  predicate JournalFits(s: Settings, tx: Tx) {
    s.journal.Some? ==> s.journal.value == tx
  }

  ghost predicate Idle(a: Credentials) {
    a.oldCapsule.None? && a.newCapsule.None? && a.commit.None? && a.prepare.None?
  }

  /** Both capsules and no marker: the transaction is open. */
  ghost predicate Open(a: Credentials) {
    a.oldCapsule.Some? && a.newCapsule.Some? && a.commit.None? && a.prepare.None?
  }

  /** Settings belong to the phase the accounts are in. */
  ghost predicate Fits(s: Settings, a: Credentials) {
    || (Idle(a) && s.journal.None?)
    || (a.prepare.Some? && a.commit.None?
        && OldFits(a.oldCapsule, a.prepare.value) && NewFits(a.newCapsule, a.prepare.value)
        && JournalFits(s, a.prepare.value)
        && s.snapshot == a.prepare.value.original && (a.oldCapsule.Some? ==> a.secret == a.oldCapsule.value.value))
    || (a.commit.Some? && a.prepare.None?
        && OldFits(a.oldCapsule, a.commit.value) && NewFits(a.newCapsule, a.commit.value)
        && JournalFits(s, a.commit.value)
        && s.snapshot == a.commit.value.candidate && (a.newCapsule.Some? ==> a.secret == a.newCapsule.value.value))
    || (Open(a) && ValidPair(a.oldCapsule.value, a.newCapsule.value) && s.journal == Some(a.oldCapsule.value.tx)
        && TornSnapshot(a.oldCapsule.value.snapshot, a.newCapsule.value.snapshot, s.snapshot)
        && (a.secret == a.oldCapsule.value.value || a.secret == a.newCapsule.value.value))
  }

  ghost predicate Coherent(w: World) {
    && Fits(w.disk, w.accounts) && Fits(w.view, w.accounts)
    && (Idle(w.accounts) ==> w.view == w.disk)
  }

  ghost function Settled(w: World): Config {
    if Open(w.accounts) then Config(w.accounts.oldCapsule.value.snapshot, w.accounts.oldCapsule.value.value)
    else Config(w.disk.snapshot, w.accounts.secret)
  }

  /** A marker covers the artifacts and the settings are stored without a journal. */
  ghost predicate Ready(w: World) {
    Coherent(w) && w.view == w.disk && w.disk.journal.None? && (w.accounts.prepare.Some? || w.accounts.commit.Some?)
  }

  /** All five artifacts gone; memory and disk agree. */
  ghost predicate Clean(w: World) {
    Idle(w.accounts) && w.view == w.disk && w.disk.journal.None?
  }

  /** A journal without any artifact it could be recovered with. */
  ghost predicate Stranded(w: World) {
    Idle(w.accounts) && w.view == w.disk && w.disk.journal.Some?
  }

  /** What is left when capsules and markers are gone and the machine loses power. */
  function Abandoned(w: World): World {
    World(w.disk, w.disk, Credentials(w.accounts.secret, None, None, None, None))
  }

  /** A write of the settings file. Only a flush that reports success is known to be stored;
      a plain sync may report success with any part of the change still pending. */
  ghost predicate SyncMay(w: World, w': World, flush: bool, r: Run<bool>) {
    && w'.accounts == w.accounts && Torn(w.disk, w.view, w'.disk)
    && w'.view == (if r.Crashed? then w'.disk else w.view)
    && (flush && r.Finished? && r.value ==> w'.disk == w.view)
  }

  ghost predicate UpdateMay(w: World, next: Credentials, w': World, r: Run<bool>) {
    && w'.disk == w.disk && (w'.accounts == w.accounts || w'.accounts == next)
    && w'.view == (if r.Crashed? then w'.disk else w.view)
    && (r.Finished? && r.value ==> w'.accounts == next)
  }

  ghost function Reported(r: Run<bool>): nat {
    if r.Finished? && !r.value then 1 else 0
  }

  class Target {
    var disk: Settings
    var view: Settings
    var accounts: Credentials
    ghost var errors: nat
    /** Set when a cleanup marker is published while the rolled-back settings are not stored yet. */
    ghost var exposed: bool
    /** Set when artifacts are to be removed without a flush while memory and disk differ. */
    ghost var unflushed: bool
    /** Set when a plain sync reports success with part of the change still pending. */
    ghost var lazy: bool
    /** The snapshots whose encoding is within the 1 MiB that a capsule may hold. */
    const writable: Snapshot -> bool

    ghost function Now(): World
      reads this
    {
      World(disk, view, accounts)
    }

    method Sync(flush: bool) returns (r: Run<bool>)
      modifies this`disk, this`view, this`errors, this`lazy
      ensures SyncMay(old(Now()), Now(), flush, r) && errors == old(errors) + Reported(r)
      ensures lazy == (old(lazy) || (r.Finished? && r.value && disk != view))
    {
      var whole: bool, dies: bool, claims: bool, torn: Settings := *, *, *, *;
      if whole {
        disk := view;
        return Finished(true);
      }
      if Torn(disk, view, torn) {
        disk := torn;
      }
      if dies {
        view := disk;
        return Crashed;
      }
      if !flush && claims {
        lazy := lazy || disk != view;
        return Finished(true);
      }
      errors := errors + 1;
      return Finished(false);
    }

    method Update(next: Credentials) returns (r: Run<bool>)
      modifies this`accounts, this`view, this`errors
      ensures UpdateMay(old(Now()), next, Now(), r) && errors == old(errors) + Reported(r)
    {
      var effective: bool, fails: bool, dies: bool := *, *, *;
      if effective || !(fails || dies) {
        accounts := next;
      }
      if dies {
        view := disk;
        return Crashed;
      }
      if fails {
        errors := errors + 1;
        return Finished(false);
      }
      return Finished(true);
    }

    method Readable() returns (r: Run<bool>)
      modifies this`view, this`errors
      ensures UpdateMay(old(Now()), accounts, Now(), r) && errors == old(errors) + Reported(r)
    {
      var fails: bool, dies: bool := *, *;
      if dies {
        view := disk;
        return Crashed;
      }
      if fails {
        errors := errors + 1;
      }
      return Finished(!fails);
    }

    /** `Sync` inside a coherent world. */
    method Store(flush: bool) returns (r: Run<bool>)
      requires Coherent(Now())
      modifies this`disk, this`view, this`errors, this`lazy
      ensures SyncMay(old(Now()), Now(), flush, r) && errors == old(errors) + Reported(r)
      ensures lazy == (old(lazy) || (r.Finished? && r.value && disk != view))
      ensures Coherent(Now()) && Settled(Now()) == old(Settled(Now()))
      ensures old(view).snapshot == old(disk).snapshot ==> disk.snapshot == old(disk).snapshot
    {
      r := Sync(flush);
      Recohere(old(Now()), Now());
    }

    /** `loadJournal`: a plain refresh, then the journal group; a failed refresh reads as invalid. */
    method LoadJournal() returns (r: Run<Option<Option<Tx>>>)
      requires Coherent(Now()) || Stranded(Now())
      modifies this`disk, this`view, this`errors, this`lazy
      ensures old(Coherent(Now())) ==> Coherent(Now()) && Settled(Now()) == old(Settled(Now()))
      ensures old(Stranded(Now())) ==> Now() == old(Now())
      ensures accounts == old(accounts)
      ensures old(view).snapshot == old(disk).snapshot ==> disk.snapshot == old(disk).snapshot
      ensures r.Crashed? ==> view == disk && errors == old(errors)
      ensures r.Finished? ==> view == old(view) && errors == old(errors) + (if r.value.Some? then 0 else 1)
      ensures r.Finished? && r.value.Some? ==> r.value.value == view.journal && (lazy || disk == view)
      ensures old(lazy) ==> lazy
    {
      var ok := Sync(false);
      if old(view).snapshot == old(disk).snapshot {
        TornOfSame(old(disk).snapshot, disk.snapshot);
      }
      if old(Coherent(Now())) {
        Recohere(old(Now()), Now());
      }
      if ok.Crashed? {
        return Crashed;
      }
      return Finished(if ok.value then Some(view.journal) else None);
    }

    /** Remove both capsules, then the marker that covers them. */
    method RemoveArtifacts() returns (r: Run<bool>)
      modifies this`accounts, this`view, this`errors
      ensures errors >= old(errors) && disk == old(disk) && accounts.secret == old(accounts).secret
      ensures view == if r.Crashed? then disk else old(view)
      ensures Idle(accounts) || (accounts.prepare == old(accounts).prepare && accounts.commit == old(accounts).commit)
      ensures r.Finished? && r.value ==> Idle(accounts)
      ensures old(Ready(Now())) ==> Coherent(Now()) && Settled(Now()) == old(Settled(Now())) && view == disk
      ensures r.Finished? && !r.value ==> errors > old(errors)
    {
      var oldRemoved :- Update(accounts.(oldCapsule := None));
      var newRemoved :- Update(accounts.(newCapsule := None));
      if !oldRemoved || !newRemoved {
        return Finished(false);
      }
      r := Update(accounts.(prepare := None, commit := None));
    }

    /** Whether there is no artifact of any transaction. */
    method Vacant() returns (r: Run<bool>)
      requires Coherent(Now())
      modifies this
      ensures Coherent(Now()) && Settled(Now()) == old(Settled(Now())) && errors >= old(errors)
      ensures exposed == old(exposed) && unflushed == old(unflushed)
      ensures accounts == old(accounts) && (r.Finished? ==> view == old(view))
      ensures r.Finished? && r.value ==> Clean(Now()) && errors == old(errors)
      ensures r.Finished? && !r.value ==> errors > old(errors) || !old(Clean(Now()))
    {
      var loaded :- LoadJournal();
      if loaded != Some(None) {
        return Finished(false);
      }
      var readable :- Readable();
      return Finished(readable && accounts.oldCapsule.None? && accounts.newCapsule.None?
                      && accounts.commit.None? && accounts.prepare.None?);
    }

    /** `beginPending`: prepare marker, both capsules, journal; dropping the marker opens the transaction. */
    method Begin(tx: Tx, oldCode: Option<Secret>, newCode: Option<Secret>) returns (r: Run<Mutation>)
      requires Coherent(Now()) && tx.original == view.snapshot && oldCode == accounts.secret
      modifies this
      ensures Coherent(Now()) && Settled(Now()) == old(Settled(Now())) && errors >= old(errors)
      ensures exposed == old(exposed) && unflushed == old(unflushed)
      ensures r.Finished? && r.value.Success? ==>
                && view == disk == Settings(tx.original, Some(tx)) && errors == old(errors)
                && writable(tx.original) && writable(tx.candidate) && old(Clean(Now()))
                && accounts == Credentials(oldCode, Some(Capsule(tx, tx.original, oldCode)),
                                           Some(Capsule(tx, tx.candidate, newCode)), None, None)
      ensures r.Finished? && !r.value.Success? ==>
                errors > old(errors) || !old(Clean(Now())) || !writable(tx.original) || !writable(tx.candidate)
      ensures r.Finished? && !old(Clean(Now())) ==> r.value.ConcurrentModification?
      ensures r.Finished? && r.value.ConcurrentModification? ==> errors > old(errors) || !old(Clean(Now()))
      ensures r.Finished? && old(Clean(Now())) ==>
                (r.value.Failed? ==> view.journal.None?) && (r.value.Indeterminate? ==> view.journal == Some(tx))
    {
      var vacant :- Vacant();
      if !vacant {
        return Finished(ConcurrentModification);
      }
      if !writable(tx.original) || !writable(tx.candidate) {
        return Finished(Failed);
      }
      r := BeginVacant(tx, oldCode, newCode);
    }

    /** `beginPending` once there is nothing in its way. */
    method BeginVacant(tx: Tx, oldCode: Option<Secret>, newCode: Option<Secret>) returns (r: Run<Mutation>)
      requires Coherent(Now()) && Clean(Now()) && tx.original == view.snapshot && oldCode == accounts.secret
      modifies this
      ensures Coherent(Now()) && Settled(Now()) == old(Settled(Now())) && errors >= old(errors)
      ensures exposed == old(exposed) && unflushed == old(unflushed)
      ensures r.Finished? && r.value.Success? ==>
                && view == disk == Settings(tx.original, Some(tx)) && errors == old(errors)
                && accounts == Credentials(oldCode, Some(Capsule(tx, tx.original, oldCode)),
                                           Some(Capsule(tx, tx.candidate, newCode)), None, None)
      ensures r.Finished? && !r.value.Success? ==> errors > old(errors) && !r.value.ConcurrentModification?
      ensures r.Finished? ==>
                (r.value.Failed? ==> view.journal.None?) && (r.value.Indeterminate? ==> view.journal == Some(tx))
    {
      var prepared :- Update(accounts.(prepare := Some(tx)));
      if !prepared {
        return Finished(Failed);
      }
      var written :- WriteCapsules(tx, oldCode, newCode);
      if !written {
        return Finished(Failed);
      }
      var journaled :- WriteJournal(tx);
      if !journaled {
        return Finished(Failed);
      }
      var begun :- Update(accounts.(prepare := None));
      return Finished(if begun then Success else Indeterminate);
    }

    /** Both capsules, under the prepare marker; a failure takes everything back. */
    method WriteCapsules(tx: Tx, oldCode: Option<Secret>, newCode: Option<Secret>) returns (r: Run<bool>)
      requires Coherent(Now()) && accounts == Credentials(oldCode, None, None, None, Some(tx))
               && view == disk == Settings(tx.original, None)
      modifies this`accounts, this`view, this`errors
      ensures Coherent(Now()) && Settled(Now()) == old(Settled(Now())) && errors >= old(errors) && view == disk
      ensures r.Finished? && r.value ==>
                && errors == old(errors)
                && accounts == Credentials(oldCode, Some(Capsule(tx, tx.original, oldCode)),
                                           Some(Capsule(tx, tx.candidate, newCode)), None, Some(tx))
      ensures r.Finished? && !r.value ==> errors > old(errors)
    {
      var oldWritten :- Update(accounts.(oldCapsule := Some(Capsule(tx, tx.original, oldCode))));
      var newWritten := false;
      if oldWritten {
        newWritten :- Update(accounts.(newCapsule := Some(Capsule(tx, tx.candidate, newCode))));
      }
      if !newWritten {
        var _ :- RemoveArtifacts();
      }
      return Finished(newWritten);
    }

    /** The journal, under the prepare marker; a failure takes everything back that it can. */
    method WriteJournal(tx: Tx) returns (r: Run<bool>)
      requires Coherent(Now()) && accounts.prepare == Some(tx) && accounts.commit.None?
               && view == disk == Settings(tx.original, None)
      modifies this
      ensures Coherent(Now()) && Settled(Now()) == old(Settled(Now())) && errors >= old(errors)
      ensures exposed == old(exposed) && unflushed == old(unflushed)
      ensures r.Finished? && r.value ==>
                view == disk == Settings(tx.original, Some(tx)) && accounts == old(accounts) && errors == old(errors)
      ensures r.Finished? && !r.value ==> errors > old(errors) && view.journal.None?
    {
      view := view.(journal := Some(tx));
      var durable :- Store(true);
      if !durable {
        view := view.(journal := None);
        var undone :- Store(true);
        if undone {
          var _ :- RemoveArtifacts();
        }
      }
      return Finished(durable);
    }

    /** `replaceAll` of the profile controller. When it fails, its own rollback may or may not have held. */
    method ReplaceProfiles(profiles: nat) returns (r: Run<Mutation>)
      requires Coherent(Now()) && Open(accounts)
      requires profiles == accounts.oldCapsule.value.snapshot.profiles
               || profiles == accounts.newCapsule.value.snapshot.profiles
      modifies this`disk, this`view, this`errors, this`lazy
      ensures Coherent(Now()) && accounts == old(accounts) && errors >= old(errors) && (old(lazy) ==> lazy)
      ensures r.Finished? ==>
                && view.journal == old(view).journal && view.snapshot.preferences == old(view).snapshot.preferences
                && !r.value.ConcurrentModification? && (!r.value.Success? ==> errors > old(errors))
      ensures r.Finished? && r.value.Success? ==>
                view.snapshot.profiles == profiles && errors == old(errors) && (lazy || disk == view)
      ensures r.Finished? && r.value.Failed? ==> view == old(view)
    {
      var before := view;
      view := view.(snapshot := view.snapshot.(profiles := profiles));
      var stored :- Store(false);
      if stored {
        return Finished(Success);
      }
      var rolledBack: bool := *;
      if rolledBack {
        view := before;
        return Finished(Failed);
      }
      return Finished(Indeterminate);
    }

    /** `compareAndApply` */
    method CompareAndApply(snapshot: Snapshot, expected: Snapshot) returns (r: Run<Mutation>)
      requires Coherent(Now()) && Open(accounts)
      requires snapshot == accounts.oldCapsule.value.snapshot || snapshot == accounts.newCapsule.value.snapshot
      modifies this`disk, this`view, this`errors, this`lazy
      ensures Coherent(Now()) && accounts == old(accounts) && errors >= old(errors) && (old(lazy) ==> lazy)
      ensures r.Finished? ==> view.journal == old(view).journal
      ensures r.Finished? && r.value.Success? ==>
                view.snapshot == snapshot && (lazy || disk == view) && errors == old(errors)
      ensures r.Finished? ==> (r.value.ConcurrentModification? <==> old(view).snapshot != expected)
      ensures r.Finished? && r.value.ConcurrentModification? ==> view == old(view)
      ensures r.Finished? && r.value.Failed? ==> view.snapshot == expected
      ensures r.Finished? && (r.value.Failed? || r.value.Indeterminate?) ==> errors > old(errors)
    {
      var current := view.snapshot;
      if current != expected {
        return Finished(ConcurrentModification);
      }
      var replaced :- ReplaceProfiles(snapshot.profiles);
      if !replaced.Success? {
        return Finished(replaced);
      }
      view := view.(snapshot := view.snapshot.(preferences := snapshot.preferences));
      var saved :- Store(false);
      if saved {
        return Finished(Success);
      }
      view := view.(snapshot := view.snapshot.(preferences := current.preferences));
      var _ :- Store(false);
      var restored :- ReplaceProfiles(current.profiles);
      return Finished(if restored.Success? then Failed else Indeterminate);
    }

    /** `writePairingCode`: a compare-and-swap of the secret. */
    method WritePairingCode(code: Option<Secret>, expected: Option<Secret>) returns (r: Run<Mutation>)
      requires Coherent(Now()) && Open(accounts)
      requires code == accounts.oldCapsule.value.value || code == accounts.newCapsule.value.value
      modifies this`accounts, this`view, this`errors
      ensures Coherent(Now()) && errors >= old(errors) && disk == old(disk)
      ensures accounts == old(accounts) || accounts == old(accounts).(secret := code)
      ensures r.Finished? ==> view == old(view)
      ensures r.Finished? && r.value.Success? ==> accounts.secret == code && errors == old(errors)
      ensures r.Finished? ==> (r.value.ConcurrentModification? <==> old(accounts).secret != expected)
      ensures r.Finished? && r.value.ConcurrentModification? ==> accounts == old(accounts)
      ensures r.Finished? && (r.value.Failed? || r.value.Indeterminate?) ==> errors > old(errors)
    {
      if accounts.secret != expected {
        return Finished(ConcurrentModification);
      }
      var swapped :- Update(accounts.(secret := code));
      var unknown: bool := *;
      return Finished(if swapped then Success else if unknown then Indeterminate else Failed);
    }

    /** `commitPendingUnlocked`: flush the candidate while the journal still guards it, publish
        the commit marker, then clean up. */
    method Commit() returns (r: Run<Mutation>)
      requires Coherent(Now())
      modifies this
      ensures Coherent(Now()) && errors >= old(errors) && exposed == old(exposed) && unflushed == old(unflushed)
      ensures !old(Open(accounts)) ==> Settled(Now()) == old(Settled(Now()))
      ensures old(Open(accounts)) ==>
                if Open(accounts) then accounts == old(accounts) && Settled(Now()) == old(Settled(Now()))
                else (accounts.commit.Some? || Clean(Now()))
                     && Settled(Now()) == Config(old(view).snapshot, old(accounts).secret)
                     && old(view).snapshot == old(accounts).newCapsule.value.snapshot
                     && old(accounts).secret == old(accounts).newCapsule.value.value
      ensures r.Finished? && r.value.Success? ==>
                && Clean(Now()) && Settled(Now()) == Config(old(view).snapshot, old(accounts).secret)
                && old(accounts).newCapsule.Some? && old(view).snapshot == old(accounts).newCapsule.value.snapshot
                && old(accounts).secret == old(accounts).newCapsule.value.value
      ensures r.Finished? && r.value.ConcurrentModification? ==>
                && accounts == old(accounts) && view == old(view) && old(accounts).newCapsule.Some?
                && (old(view).snapshot != old(accounts).newCapsule.value.snapshot
                    || old(accounts).secret != old(accounts).newCapsule.value.value)
      ensures r.Finished? && r.value.Indeterminate? ==> errors > old(errors) || !old(Open(accounts))
      ensures r.Finished? ==> !r.value.Failed?
    {
      var loaded :- LoadJournal();
      if loaded.None? || loaded.value.None? {
        return Finished(Indeterminate);
      }
      var tx := loaded.value.value;
      var readable :- Readable();
      if !readable || accounts.oldCapsule.None? || accounts.newCapsule.None? || accounts.prepare.Some? {
        return Finished(Indeterminate);
      }
      var older, newer := accounts.oldCapsule.value, accounts.newCapsule.value;
      if !ValidPair(older, newer) || older.tx != tx {
        return Finished(Indeterminate);
      }
      if view.snapshot != newer.snapshot || accounts.secret != newer.value {
        return Finished(ConcurrentModification);
      }
      var stored :- Store(true);
      if !stored {
        return Finished(Indeterminate);
      }
      var committed :- Update(accounts.(commit := Some(tx)));
      if !committed {
        return Finished(Indeterminate);
      }
      view := view.(journal := None);
      var dropped :- Store(true);
      if !dropped {
        return Finished(Indeterminate);
      }
      var removed :- RemoveArtifacts();
      return Finished(if removed then Success else Indeterminate);
    }

    /** Publish a prepare marker that turns recovery into cleanup. Nothing is flushed first, so
        the rolled-back settings may still be pending when the marker becomes durable. */
    method PublishCleanup(tx: Tx) returns (r: Run<bool>)
      requires Coherent(Now()) && Open(accounts) && tx == accounts.oldCapsule.value.tx
      requires view.snapshot == tx.original && accounts.secret == accounts.oldCapsule.value.value
      modifies this`accounts, this`view, this`errors, this`exposed
      ensures UpdateMay(old(Now()), old(accounts).(prepare := Some(tx)), Now(), r)
              && errors == old(errors) + Reported(r)
      ensures exposed == (old(exposed) || old(disk).snapshot != old(view).snapshot)
      ensures exposed || (Coherent(Now()) && Settled(Now()) == old(Settled(Now())))
    {
      exposed := exposed || disk.snapshot != view.snapshot;
      r := Update(accounts.(prepare := Some(tx)));
    }

    /** `abortPendingUnlocked`: turn the transaction into a cleanup and finish it. */
    method Abort() returns (r: Run<Mutation>)
      requires Coherent(Now())
      requires Open(accounts) ==>
                view.snapshot == accounts.oldCapsule.value.snapshot
                && accounts.secret == accounts.oldCapsule.value.value
      modifies this
      ensures errors >= old(errors) && (old(exposed) ==> exposed) && (old(lazy) ==> lazy) && unflushed == old(unflushed)
      ensures exposed || Coherent(Now())
      ensures Coherent(Now()) ==> Settled(Now()) == old(Settled(Now()))
      ensures old(disk).snapshot == old(view).snapshot || !lazy ==> exposed == old(exposed)
      ensures r.Finished? && r.value.Success? ==> Clean(Now()) && Coherent(Now()) && old(Open(accounts))
      ensures r.Finished? && !r.value.Success? ==> errors > old(errors) || !old(Open(accounts))
      ensures r.Finished? ==> r.value.Success? || r.value.Indeterminate?
    {
      var loaded :- LoadJournal();
      if loaded.None? || loaded.value.None? {
        return Finished(Indeterminate);
      }
      var tx := loaded.value.value;
      var readable :- Readable();
      if !readable || accounts.oldCapsule.None? || accounts.newCapsule.None? || accounts.commit.Some?
         || accounts.prepare.Some? {
        return Finished(Indeterminate);
      }
      if !ValidPair(accounts.oldCapsule.value, accounts.newCapsule.value) || accounts.oldCapsule.value.tx != tx {
        return Finished(Indeterminate);
      }
      r := AbortOpen(tx);
    }

    /** `abortPendingUnlocked` once journal and capsules are known to belong together. */
    method AbortOpen(tx: Tx) returns (r: Run<Mutation>)
      requires Coherent(Now()) && Open(accounts) && tx == accounts.oldCapsule.value.tx
      requires view.snapshot == tx.original && accounts.secret == accounts.oldCapsule.value.value
      modifies this
      ensures errors >= old(errors) && lazy == old(lazy) && unflushed == old(unflushed)
      ensures exposed == (old(exposed) || old(disk).snapshot != old(view).snapshot)
      ensures exposed || Coherent(Now())
      ensures Coherent(Now()) ==> Settled(Now()) == old(Settled(Now()))
      ensures r.Finished? && r.value.Success? ==> Clean(Now()) && Coherent(Now())
      ensures r.Finished? && !r.value.Success? ==> errors > old(errors) && r.value.Indeterminate?
    {
      var published :- PublishCleanup(tx);
      if !published {
        return Finished(Indeterminate);
      }
      view := view.(journal := None);
      var dropped :- Dropped();
      if !dropped {
        return Finished(Indeterminate);
      }
      var removed :- RemoveArtifacts();
      return Finished(if removed then Success else Indeterminate);
    }

    /** The flush after a cleanup marker: it makes the rolled-back settings durable. */
    method Dropped() returns (r: Run<bool>)
      requires Fits(view, accounts) && accounts.prepare.Some? && (exposed || Coherent(Now()))
      modifies this`disk, this`view, this`errors, this`lazy
      ensures SyncMay(old(Now()), Now(), true, r) && errors == old(errors) + Reported(r) && lazy == old(lazy)
      ensures exposed || (Coherent(Now()) && Settled(Now()) == old(Settled(Now())))
      ensures r.Finished? && r.value ==> Coherent(Now())
    {
      r := Sync(true);
      if !exposed {
        Recohere(old(Now()), Now());
      }
    }

    /** Recovery under a marker: drop the journal, then the artifacts. */
    method CleanUp() returns (r: Run<Recovery>)
      requires Coherent(Now()) && (accounts.prepare.Some? || accounts.commit.Some?)
      requires lazy || disk == view
      modifies this
      ensures lazy == old(lazy) && errors >= old(errors) && exposed == old(exposed)
      ensures unflushed == (old(unflushed) || (old(view).journal.None? && old(disk).journal.Some?))
      ensures unflushed || Coherent(Now())
      ensures Coherent(Now()) ==> Settled(Now()) == old(Settled(Now()))
      ensures r.Finished? ==>
                || (r.value.NotNeeded? && Idle(accounts) && view == old(view).(journal := None))
                || (r.value.Blocked? && errors > old(errors))
    {
      if view.journal.Some? {
        view := view.(journal := None);
        var dropped :- Store(true);
        if !dropped {
          return Finished(Blocked);
        }
      } else {
        unflushed := unflushed || disk.journal.Some?;
      }
      var removed :- RemoveArtifacts();
      return Finished(if removed then NotNeeded else Blocked);
    }

    /** `recoverPendingImport`: clean up under a marker, else roll an open transaction back. */
    method RecoverPending() returns (r: Run<Recovery>)
      requires Coherent(Now()) || Stranded(Now())
      modifies this
      ensures errors >= old(errors) && (old(exposed) ==> exposed) && (exposed ==> old(exposed) || lazy)
      ensures (old(unflushed) ==> unflushed) && (unflushed ==> old(unflushed) || lazy)
      ensures old(Coherent(Now())) && Coherent(Now()) ==> RecoverEffect(old(Now()), Now(), r, errors - old(errors))
      ensures old(Coherent(Now())) ==> exposed || unflushed || Coherent(Now())
      ensures old(Coherent(Now())) && r.Finished? && r.value.Recovered? ==> Coherent(Now())
      ensures old(Coherent(Now())) && r.Finished? && r.value.NotNeeded? ==> unflushed || Coherent(Now())
      ensures old(Coherent(Now())) && r.Finished? && !r.value.Blocked? ==>
                (r.value.Recovered? <==> old(Open(accounts)))
      ensures old(Stranded(Now())) ==> Now() == old(Now()) && (r.Finished? ==> r.value.Blocked?)
    {
      var loaded :- LoadJournal();
      if loaded.None? {
        return Finished(Blocked);
      }
      var readable :- Readable();
      if !readable {
        return Finished(Blocked);
      }
      if accounts.prepare.Some? || accounts.commit.Some? {
        r := CleanUp();
        return;
      }
      if accounts.oldCapsule.None? && accounts.newCapsule.None? {
        return Finished(if view.journal.None? then NotNeeded else Blocked);
      }
      if accounts.oldCapsule.None? || accounts.newCapsule.None? {
        return Finished(Blocked);
      }
      r := RollBack();
    }

    /** The open-transaction branch of `recoverPendingImport`. An open transaction has its
        journal, in memory and on disk, so the source's branch for a journal that has to be
        reconstructed from the capsules is never taken. */
    method RollBack() returns (r: Run<Recovery>)
      requires Coherent(Now()) && Open(accounts) && (lazy || disk == view)
      modifies this
      ensures errors >= old(errors) && (old(exposed) ==> exposed) && (exposed ==> old(exposed) || lazy)
              && (old(lazy) ==> lazy)
      ensures unflushed == old(unflushed)
      ensures Coherent(Now()) ==> RecoverEffect(old(Now()), Now(), r, errors - old(errors))
      ensures exposed || Coherent(Now())
      ensures r.Finished? && !r.value.Blocked? ==> Coherent(Now())
    {
      var older, newer := accounts.oldCapsule.value, accounts.newCapsule.value;
      var reconstructed := view.journal.None?;
      if !ValidPair(older, newer) || (view.journal.Some? && view.journal.value != older.tx) {
        return Finished(Blocked);
      }
      if !TornSnapshot(older.snapshot, newer.snapshot, view.snapshot)
         || (accounts.secret != older.value && accounts.secret != newer.value) {
        return Finished(Blocked);
      }
      var back :- PutBack();
      if !back {
        return Finished(Blocked);
      }
      if reconstructed {
        assert false;
      }
      var aborted :- Abort();
      return Finished(if aborted.Success? then Recovered else Blocked);
    }

    /** Put the old capsule's snapshot and secret back where they are not. */
    method PutBack() returns (r: Run<bool>)
      requires Coherent(Now()) && Open(accounts) && (lazy || disk == view)
      modifies this
      ensures Coherent(Now()) && Open(accounts) && errors >= old(errors) && (old(lazy) ==> lazy)
      ensures exposed == old(exposed) && unflushed == old(unflushed)
      ensures accounts.(secret := None) == old(accounts).(secret := None)
      ensures r.Finished? ==> view.journal == old(view).journal
      ensures r.Finished? && r.value ==>
                && view.snapshot == accounts.oldCapsule.value.snapshot
                && accounts.secret == accounts.oldCapsule.value.value
                && (lazy || disk == view)
      ensures r.Finished? && !r.value ==> errors > old(errors)
    {
      var older := accounts.oldCapsule.value;
      if view.snapshot != older.snapshot {
        var rolled :- CompareAndApply(older.snapshot, view.snapshot);
        if !rolled.Success? {
          return Finished(false);
        }
      }
      if accounts.secret != older.value {
        var swapped :- WritePairingCode(older.value, accounts.secret);
        return Finished(swapped.Success?);
      }
      return Finished(true);
    }

    /** `recoverPortablePreferencesBeforePreflight`: the first startup stage puts only the
        preferences of an open transaction back and leaves its artifacts for the second. */
    method RecoverPreferences() returns (r: Run<Recovery>)
      requires Coherent(Now()) || Stranded(Now())
      modifies this
      ensures errors >= old(errors) && exposed == old(exposed)
      ensures (old(unflushed) ==> unflushed) && (unflushed ==> old(unflushed) || lazy)
      ensures old(Stranded(Now())) ==> Now() == old(Now()) && (r.Finished? ==> r.value.Blocked?)
      ensures old(Coherent(Now())) ==> unflushed || Coherent(Now())
      ensures old(Coherent(Now())) && Coherent(Now()) ==> Settled(Now()) == old(Settled(Now()))
      ensures old(Open(accounts)) ==> accounts == old(accounts)
      ensures r.Finished? && !r.value.Blocked? ==> view.snapshot.profiles == old(view).snapshot.profiles
      ensures old(Coherent(Now())) && r.Finished? && !r.value.Blocked? ==>
                (r.value.Recovered? <==> old(Open(accounts)))
      ensures old(Coherent(Now())) && Coherent(Now()) && r.Finished? ==>
                match r.value {
                  case NotNeeded => Clean(Now())
                  case Recovered =>
                    Open(accounts) && view == disk
                    && disk.snapshot.preferences == Settled(Now()).snapshot.preferences
                  case Blocked => errors > old(errors)
                }
    {
      var loaded :- LoadJournal();
      if loaded.None? {
        return Finished(Blocked);
      }
      var readable :- Readable();
      if !readable {
        return Finished(Blocked);
      }
      if accounts.prepare.Some? || accounts.commit.Some? {
        r := CleanUp();
        return;
      }
      if accounts.oldCapsule.None? && accounts.newCapsule.None? && view.journal.None? {
        return Finished(NotNeeded);
      }
      if accounts.oldCapsule.None? || accounts.newCapsule.None? {
        return Finished(Blocked);
      }
      var older, newer := accounts.oldCapsule.value, accounts.newCapsule.value;
      if !ValidPair(older, newer) || (view.journal.Some? && view.journal.value != older.tx)
         || !Mixed(view.snapshot.preferences, older.snapshot.preferences, newer.snapshot.preferences) {
        return Finished(Blocked);
      }
      view := view.(snapshot := view.snapshot.(preferences := older.snapshot.preferences));
      var stored :- Store(true);
      return Finished(if stored then Recovered else Blocked);
    }

    /** `apply` of the import service on this target, from the opening of its journal on.
        `sensitive` is the secret the package carries, if it carries one. */
    method Import(id: nat, candidate: Snapshot, sensitive: Option<Option<Secret>>)
        returns (r: Run<Outcome>, ghost public: Mutation, ghost secret: Mutation)
      requires Coherent(Now())
      modifies this
      ensures errors >= old(errors) && (old(exposed) ==> exposed) && (exposed ==> old(exposed) || lazy)
              && unflushed == old(unflushed)
      ensures Coherent(Now()) ==>
                ImportEffect(old(Now()), Now(),
                             Config(candidate, if sensitive.Some? then sensitive.value else old(accounts).secret),
                             !writable(old(view).snapshot) || !writable(candidate), r, errors - old(errors))
      ensures (exposed && (r.Crashed? || r.value.RollbackFailed?)) || Coherent(Now())
      ensures r.Finished? && !old(Clean(Now())) ==> r.value.JournalBeginFailed?
      ensures r.Finished? && !r.value.JournalBeginFailed? ==> Explained(r.value, sensitive.Some?, public, secret)
    {
      public, secret := Success, Success;
      var original, oldCode := view.snapshot, accounts.secret;
      var newCode := if sensitive.Some? then sensitive.value else oldCode;
      var begun := Begin(Tx(id, original, candidate), oldCode, newCode);
      if begun != Finished(Success) {
        r := if begun.Crashed? then Crashed else Finished(JournalBeginFailed);
        return;
      }
      r, public, secret := ImportBegun(candidate, original, sensitive, oldCode);
    }

    /** `apply` once its journal is open; `public` and `secret` are what applying the one and the
        other answered. */
    method ImportBegun(candidate: Snapshot, original: Snapshot, sensitive: Option<Option<Secret>>,
                       oldCode: Option<Secret>)
      returns (r: Run<Outcome>, ghost public: Mutation, ghost secret: Mutation)
      requires Coherent(Now()) && Open(accounts) && view.journal.Some? && view.snapshot == original
               && accounts.secret == oldCode
      requires original == accounts.oldCapsule.value.snapshot && candidate == accounts.newCapsule.value.snapshot
      requires oldCode == accounts.oldCapsule.value.value
      requires accounts.newCapsule.value.value == if sensitive.Some? then sensitive.value else oldCode
      modifies this
      ensures errors >= old(errors) && (old(exposed) ==> exposed) && (exposed ==> old(exposed) || lazy)
              && unflushed == old(unflushed)
      ensures Coherent(Now()) ==>
                ImportEffect(old(Now()), Now(), old(Config(candidate, accounts.newCapsule.value.value)), false, r,
                             errors - old(errors))
      ensures (exposed && (r.Crashed? || r.value.RollbackFailed?)) || Coherent(Now())
      ensures r.Finished? ==> !r.value.JournalBeginFailed?
      ensures r.Finished? ==> Explained(r.value, sensitive.Some?, public, secret)
      ensures r.Finished? && r.value.RollbackFailed? && (public.Failed? || secret.ConcurrentModification?
                                                         || secret.Indeterminate?) ==>
                errors >= old(errors) + 2
    {
      public, secret := Success, Success;
      var applied := CompareAndApply(candidate, original);
      if applied.Crashed? {
        r := Crashed;
        return;
      }
      public := applied.value;
      if !applied.value.Success? {
        r := FailImport(candidate, sensitive, false, applied.value.Failed?, PublicApplyFailed);
        return;
      }
      if sensitive.Some? {
        var swapped := WritePairingCode(sensitive.value, oldCode);
        if swapped.Crashed? {
          r := Crashed;
          return;
        }
        secret := swapped.value;
        if !swapped.value.Success? {
          r := FailImport(candidate, sensitive, !swapped.value.Failed?, swapped.value.Failed?, SensitiveApplyFailed);
          return;
        }
      }
      r := ConfirmImport(candidate, sensitive);
    }

    /** Undo and answer: `failure` where it is certain that nothing was applied. */
    method FailImport(candidate: Snapshot, sensitive: Option<Option<Secret>>, restoreSensitive: bool, certain: bool,
                      failure: Outcome) returns (r: Run<Outcome>)
      requires Coherent(Now()) && Open(accounts)
      requires sensitive.None? ==> accounts.secret == accounts.oldCapsule.value.value
      requires sensitive.Some? ==> accounts.newCapsule.value.value == sensitive.value
      modifies this
      ensures errors >= old(errors) && (old(exposed) ==> exposed) && (exposed ==> old(exposed) || lazy)
              && (old(lazy) ==> lazy)
      ensures unflushed == old(unflushed)
      ensures (exposed && (r.Crashed? || r.value.RollbackFailed?)) || Coherent(Now())
      ensures Coherent(Now()) ==> Settled(Now()) == old(Settled(Now()))
      ensures r.Finished? && !r.value.RollbackFailed? ==>
                Clean(Now()) && r.value == if certain then failure else IndeterminateState
      ensures r.Finished? && r.value.RollbackFailed? && !failure.RollbackFailed? ==>
                errors > old(errors) || !old(Undoable(Now(), candidate, sensitive.Some? && !restoreSensitive))
    {
      var undone :- UndoImport(candidate, sensitive, restoreSensitive);
      return Finished(if !undone then RollbackFailed else if certain then failure else IndeterminateState);
    }

    /** `apply` from reading the candidate back on. */
    method ConfirmImport(candidate: Snapshot, sensitive: Option<Option<Secret>>) returns (r: Run<Outcome>)
      requires Coherent(Now()) && Open(accounts) && view.journal.Some?
      requires view.snapshot == candidate == accounts.newCapsule.value.snapshot
      requires accounts.secret == accounts.newCapsule.value.value
      requires sensitive.None? ==> accounts.secret == accounts.oldCapsule.value.value
      requires sensitive.Some? ==> accounts.newCapsule.value.value == sensitive.value
      modifies this
      ensures errors >= old(errors) && (old(exposed) ==> exposed) && (exposed ==> old(exposed) || lazy)
              && unflushed == old(unflushed)
      ensures Coherent(Now()) ==>
                ImportEffect(old(Now()), Now(), old(Config(candidate, accounts.secret)), false, r, errors - old(errors))
      ensures (exposed && (r.Crashed? || r.value.RollbackFailed?)) || Coherent(Now())
      ensures r.Finished? ==>
                || r.value.Imported? || r.value.JournalCommitFailed?
                || r.value.VerificationFailed? || r.value.RollbackFailed?
    {
      var readable :- Readable();
      if !readable || view.snapshot != candidate || (sensitive.Some? && accounts.secret != sensitive.value) {
        var undone :- UndoImport(candidate, sensitive, true);
        return Finished(if undone then VerificationFailed else RollbackFailed);
      }
      var committed :- Commit();
      return Finished(if committed.Success? then Imported else JournalCommitFailed);
    }

    /** The `rollback` closure: restore, read back, and abort only what was read back as restored. */
    method UndoImport(candidate: Snapshot, sensitive: Option<Option<Secret>>, restoreSensitive: bool)
        returns (r: Run<bool>)
      requires Coherent(Now()) && Open(accounts)
      requires sensitive.None? ==> accounts.secret == accounts.oldCapsule.value.value
      requires sensitive.Some? ==> accounts.newCapsule.value.value == sensitive.value
      modifies this
      ensures errors >= old(errors) && (old(exposed) ==> exposed) && (exposed ==> old(exposed) || lazy)
              && (old(lazy) ==> lazy)
      ensures unflushed == old(unflushed)
      ensures exposed || Coherent(Now())
      ensures Coherent(Now()) ==> Settled(Now()) == old(Settled(Now()))
      ensures r.Finished? && r.value ==> Clean(Now()) && Coherent(Now())
      ensures r.Finished? && !r.value ==>
                errors > old(errors) || !old(Undoable(Now(), candidate, sensitive.Some? && !restoreSensitive))
    {
      var original, oldCode := accounts.oldCapsule.value.snapshot, accounts.oldCapsule.value.value;
      var _ :- CompareAndApply(original, candidate);
      if restoreSensitive && sensitive.Some? {
        var _ :- WritePairingCode(oldCode, sensitive.value);
      }
      var readable :- Readable();
      if view.snapshot != original || (sensitive.Some? && (!readable || accounts.secret != oldCode)) {
        return Finished(false);
      }
      var aborted :- Abort();
      return Finished(aborted.Success?);
    }
  }

  lemma TornOfSame(s: Snapshot, after: Snapshot)
    requires TornSnapshot(s, s, after)
    ensures after == s
  {
    MixedOfSame(after.preferences, s.preferences);
  }

  lemma Recohere(w: World, w': World)
    requires Coherent(w) && w'.accounts == w.accounts && Torn(w.disk, w.view, w'.disk)
    requires w'.view == w.view || w'.view == w'.disk
    ensures Coherent(w') && Settled(w') == Settled(w)
    ensures w.view.snapshot == w.disk.snapshot ==> w'.disk.snapshot == w.disk.snapshot
  {
    if w.view.snapshot == w.disk.snapshot {
      TornOfSame(w.disk.snapshot, w'.disk.snapshot);
    }
  }

  /** What one recovery may do when `errors` stores and reads reported an error during it. */
  ghost predicate RecoverEffect(w: World, w': World, r: Run<Recovery>, errors: int) {
    && errors >= 0
    && Settled(w') == Settled(w)
    && (r.Finished? && !r.value.Blocked? ==> Clean(w'))
    && (r.Finished? && !r.value.Blocked? ==>
          && (r.value.Recovered? <==> Open(w.accounts))
          && (r.value.NotNeeded? <==> w.accounts.prepare.Some? || w.accounts.commit.Some? || Idle(w.accounts)))
    && (r.Finished? && r.value.Blocked? ==> errors > 0)
  }

  /** The compare-and-swap steps of a rollback find what they expect: `kept` says that the
      secret is left as it is. */
  ghost predicate Undoable(w: World, candidate: Snapshot, kept: bool)
    requires w.accounts.oldCapsule.Some?
  {
    && (w.view.snapshot == candidate || w.view.snapshot == w.accounts.oldCapsule.value.snapshot)
    && (kept ==> w.accounts.secret == w.accounts.oldCapsule.value.value)
  }

  /** What the two applications answered when an import gives which outcome. */
  predicate Explained(outcome: Outcome, sensitive: bool, public: Mutation, secret: Mutation) {
    match outcome
    case PublicApplyFailed => public.Failed?
    case SensitiveApplyFailed => sensitive && public.Success? && secret.Failed?
    case IndeterminateState =>
      public.ConcurrentModification? || public.Indeterminate?
      || (sensitive && public.Success? && (secret.ConcurrentModification? || secret.Indeterminate?))
    case RollbackFailed => true
    case _ => public.Success? && secret.Success?
  }

  /** What one import may do when `errors` stores and reads reported an error during it;
      `oversized` says that one of its snapshots does not fit a capsule. */
  ghost predicate ImportEffect(w: World, w': World, candidate: Config, oversized: bool, r: Run<Outcome>, errors: int) {
    && errors >= 0
    && (r.Finished? && errors == 0 && Clean(w) ==> (r.value.JournalBeginFailed? <==> oversized))
    && (Settled(w') == Settled(w) || Settled(w') == candidate)
    && (r.Finished? ==>
          match r.value {
            case Imported => Settled(w') == candidate && Clean(w')
            case JournalCommitFailed => errors > 0
            case JournalBeginFailed => Settled(w') == Settled(w)
            case RollbackFailed => Settled(w') == Settled(w) && errors > 0
            case _ => Settled(w') == Settled(w) && Clean(w') && errors > 0
          })
  }

  datatype Call =
    | Importing(candidate: Config, oversized: bool, outcome: Run<Outcome>, errors: int)
    | Recovering(recovered: Run<Recovery>, errors: int)
    | ResettingPreferences

  ghost predicate Allowed(w: World, call: Call, w': World) {
    && Coherent(w) && Coherent(w')
    && match call {
      case Importing(candidate, oversized, outcome, errors) =>
        && ImportEffect(w, w', candidate, oversized, outcome, errors)
        && (outcome.Finished? && !Clean(w) ==> outcome.value.JournalBeginFailed?)
      case Recovering(recovered, errors) => RecoverEffect(w, w', recovered, errors)
      case ResettingPreferences => Settled(w') == Settled(w)
    }
  }

  /** Any sequence of imports, startup preference resets and recoveries, each of which may have
      failed or been cut short by a crash, whose worlds are coherent. A call leaves an incoherent
      one only by a marker exposed before the flush that follows it, or by a cleanup without a
      flush, and only after a sync that was reported and not stored. */
  ghost predicate IsRun(worlds: seq<World>, calls: seq<Call>) {
    |worlds| == |calls| + 1 && forall i :: 0 <= i < |calls| ==> Allowed(worlds[i], calls[i], worlds[i + 1])
  }

  ghost function Writes(calls: seq<Call>): seq<Option<Config>> {
    seq(|calls|, i requires 0 <= i < |calls| => if calls[i].Importing? then Some(calls[i].candidate) else None)
  }

  /** Answers that say the candidate was not installed. */
  ghost predicate Declined(outcome: Run<Outcome>) {
    outcome.Finished? && !outcome.value.Imported? && !outcome.value.JournalCommitFailed?
  }

  /** Preferences, profiles and secret move together: at every point of a run the stores stand
      for what an atomic register holds, for one choice of which imports took place. */
  lemma ImportsAreAtomic(worlds: seq<World>, calls: seq<Call>) returns (took: seq<bool>)
    requires IsRun(worlds, calls)
    ensures |took| == |calls|
    ensures forall k :: 0 <= k < |calls| && calls[k].Importing? && calls[k].outcome == Finished(Imported) ==> took[k]
    ensures forall k :: 0 <= k < |calls| && calls[k].Importing? && Declined(calls[k].outcome) ==> !took[k]
    ensures forall j :: 0 <= j <= |calls| ==>
                          Settled(worlds[j]) == Register(Settled(worlds[0]), Writes(calls)[..j], took[..j])
  {
    var held := seq(|worlds|, i requires 0 <= i < |worlds| => Settled(worlds[i]));
    forall i | 0 <= i < |calls|
      ensures held[i + 1] == held[i] || Writes(calls)[i] == Some(held[i + 1])
      ensures calls[i].Importing? && calls[i].outcome == Finished(Imported) ==> Writes(calls)[i] == Some(held[i + 1])
      ensures calls[i].Importing? && Declined(calls[i].outcome) ==> held[i + 1] == held[i]
    {
      assert Allowed(worlds[i], calls[i], worlds[i + 1]);
    }
    took := Linearize(held, Writes(calls),
                      set k: nat | k < |calls| && calls[k].Importing? && calls[k].outcome == Finished(Imported),
                      set k: nat | k < |calls| && calls[k].Importing? && Declined(calls[k].outcome));
  }

  /** After an interrupted import any sequence of recoveries keeps one configuration, and the
      first one that completes leaves exactly it, with all five artifacts gone. */
  lemma {:induction false} RecoveryIsStable(worlds: seq<World>, calls: seq<Call>)
    requires IsRun(worlds, calls) && calls != [] && forall call <- calls :: !call.Importing?
    ensures Settled(worlds[|calls|]) == Settled(worlds[0])
    ensures var last, end := calls[|calls| - 1], worlds[|calls|];
            last.Recovering? && last.recovered.Finished? ==>
              if last.recovered.value.Blocked? then last.errors > 0
              else
                && Clean(end) && Config(end.disk.snapshot, end.accounts.secret) == Settled(worlds[0])
                && (last.recovered.value.Recovered? <==> Open(worlds[|calls| - 1].accounts))
  {
    var n := |calls| - 1;
    assert calls[n] in calls && Allowed(worlds[n], calls[n], worlds[n + 1]);
    if n > 0 {
      RecoveryIsStable(worlds[..n + 1], calls[..n]);
    }
  }

  /** While a transaction is open the stores stand for the old capsule; under a commit marker,
      for the candidate. */
  lemma OneCommitPoint(w: World)
    requires Coherent(w)
    ensures Open(w.accounts) ==>
              Settled(w) == Config(w.accounts.oldCapsule.value.tx.original, w.accounts.oldCapsule.value.value)
    ensures w.accounts.commit.Some? ==>
              Settled(w).snapshot == w.accounts.commit.value.candidate
              && (w.accounts.newCapsule.Some? ==>
                    Settled(w) == Config(w.accounts.newCapsule.value.snapshot, w.accounts.newCapsule.value.value))
    ensures w.accounts.prepare.Some? ==>
              Settled(w).snapshot == w.accounts.prepare.value.original
              && (w.accounts.oldCapsule.Some? ==>
                    Settled(w) == Config(w.accounts.oldCapsule.value.snapshot, w.accounts.oldCapsule.value.value))
  {
  }

  /** When a rollback publishes its cleanup marker and the machine then loses power, the stores
      still stand for the original if and only if the rolled-back settings were already stored. */
  lemma CleanupMarkerCondition(w: World)
    requires Coherent(w) && Open(w.accounts)
    requires w.view.snapshot == w.accounts.oldCapsule.value.snapshot
             && w.accounts.secret == w.accounts.oldCapsule.value.value
    ensures var lost := World(w.disk, w.disk, w.accounts.(prepare := Some(w.accounts.oldCapsule.value.tx)));
            (Coherent(lost) && Settled(lost) == Settled(w)) <==> w.disk.snapshot == w.view.snapshot
  {
  }

  /** Under a marker, with no journal in memory, the artifacts are removed without a flush. When
      the machine then loses power, the stores still stand for the same configuration, in a
      shape that recovery accepts, if and only if there was no journal on disk either. */
  lemma CleanupCondition(w: World)
    requires Coherent(w) && (w.accounts.prepare.Some? || w.accounts.commit.Some?) && w.view.journal.None?
    ensures (Coherent(Abandoned(w)) && Settled(Abandoned(w)) == Settled(w)) <==> w.disk.journal.None?
    ensures w.disk.journal.Some? ==> Stranded(Abandoned(w))
  {
  }

  /** An open transaction has its journal in memory and on disk. */
  lemma OpenIsJournaled(w: World)
    requires Coherent(w) && Open(w.accounts)
    ensures w.view.journal == w.disk.journal == Some(w.accounts.oldCapsule.value.tx)
  {
  }

  /** That this matters: nothing but the journal is pending, its removal fails,
      the next recovery's plain sync reports success without storing, the artifacts go, and
      after a power loss a journal is left that every recovery refuses. */
  lemma UnflushedCleanupStrands(id: nat, original: Snapshot, candidate: Snapshot)
      returns (begun: World, marked: World, failed: World, refreshed: World, removed: World, end: World, tx: Tx)
    ensures tx == Tx(id, original, candidate)
    ensures Coherent(begun) && Open(begun.accounts) && begun.view == begun.disk == Settings(original, Some(tx))
    ensures UpdateMay(begun, begun.accounts.(prepare := Some(tx)), marked, Finished(true))
    ensures SyncMay(marked.(view := Settings(original, None)), failed, true, Finished(false))
    ensures SyncMay(failed, refreshed, false, Finished(true)) && Coherent(refreshed) && refreshed.view.journal.None?
    ensures removed == refreshed.(accounts := Credentials(None, None, None, None, None))
    ensures SyncMay(removed, end, false, Crashed) && Stranded(end)
  {
    tx := Tx(id, original, candidate);
    var accounts := Credentials(None, Some(Capsule(tx, original, None)), Some(Capsule(tx, candidate, None)), None,
                                None);
    var stored, pending := Settings(original, Some(tx)), Settings(original, None);
    begun := World(stored, stored, accounts);
    marked := begun.(accounts := accounts.(prepare := Some(tx)));
    failed := World(stored, pending, marked.accounts);
    refreshed := failed;
    removed := World(stored, pending, Credentials(None, None, None, None, None));
    end := World(stored, stored, removed.accounts);
  }

  /** That the marker before the flush matters: an opened transaction, a candidate that is
      applied, a rollback whose plain sync is reported but stored in part, its marker, a power
      loss and a cleanup end with no artifact and with preferences that are neither original
      nor candidate. */
  lemma UnflushedRollbackMixes(id: nat)
      returns (begun: World, applied: World, rolledBack: World, marked: World, lost: World, dropped: World, end: World,
               tx: Tx)
    ensures Coherent(begun) && Open(begun.accounts) && begun.view == begun.disk == Settings(tx.original, Some(tx))
    ensures begun.accounts.oldCapsule.value.tx == tx && tx.id == id
    ensures SyncMay(begun.(view := Settings(tx.candidate, Some(tx))), applied, false, Finished(true))
    ensures SyncMay(applied.(view := Settings(tx.original, Some(tx))), rolledBack, false, Finished(true))
    ensures UpdateMay(rolledBack, rolledBack.accounts.(prepare := Some(tx)), marked, Finished(true))
    ensures SyncMay(marked.(view := Settings(tx.original, None)), lost, true, Crashed)
    ensures SyncMay(lost.(view := lost.view.(journal := None)), dropped, true, Finished(true))
    ensures end == dropped.(accounts := Credentials(dropped.accounts.secret, None, None, None, None))
    ensures Clean(end) && Settled(end).snapshot != tx.original && Settled(end).snapshot != tx.candidate
  {
    var older := map[Port := Number(24800), LogLevel := Number(3)];
    var newer := map[Port := Number(24801), LogLevel := Number(4)];
    var mixed := map[Port := Number(24800), LogLevel := Number(4)];
    tx := Tx(id, Snapshot(older, 0), Snapshot(newer, 0));
    var accounts := Credentials(None, Some(Capsule(tx, tx.original, None)), Some(Capsule(tx, tx.candidate, None)),
                                None, None);
    var original, candidate := Settings(tx.original, Some(tx)), Settings(tx.candidate, Some(tx));
    var stored := Settings(Snapshot(mixed, 0), Some(tx));
    begun := World(original, original, accounts);
    applied := World(candidate, candidate, accounts);
    rolledBack := World(stored, original, accounts);
    marked := rolledBack.(accounts := accounts.(prepare := Some(tx)));
    lost := World(stored, stored, marked.accounts);
    dropped := World(stored.(journal := None), stored.(journal := None), marked.accounts);
    end := dropped.(accounts := Credentials(None, None, None, None, None));
    assert Mixed(mixed, newer, older);
    assert mixed[LogLevel] != older[LogLevel] && mixed[Port] != newer[Port];
  }
}
