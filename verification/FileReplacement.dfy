/**
  Publishing a received file. Replacing an existing file journals the name the original moves
  to, moves it away, moves the new file in, journals completion, and only then deletes the
  original. The process may die at any point, a rename may be refused, a journal write that
  reports failure may or may not have reached the disk, and other programs may create files.
*/
module FileReplacement {
  import opened Crash

  type Name = nat
  type Content = seq<int>

  /** The durable journal of one transfer, after its last byte was received. */
  datatype Manifest = Manifest(published: bool, recovery: Option<Name>, completed: bool)

  /** What the publishing primitive gives back, and whether the journal named the spare. */
  datatype Attempt = Attempt(published: bool, recovery: Option<Name>, prepared: bool)

  /** What the user is told; nothing is when the transfer ends before publication. */
  datatype Outcome =
    | NotAttempted
    | Unchanged
    | Committed
    | CommittedWithRecovery(kept: Name)
    | RecoveryRequired(named: Name)

  datatype Answer = Resume | AlreadyComplete | NeedsRecovery(at: Name) | NeedsReview

  class Folder {
    const destination: Name
    const part: Name
    const incoming: Content
    /** What the transfer may replace. */
    ghost const original: Content
    var files: map<Name, Content>
    var manifest: Manifest
    /** How many journal writes have reported a failure. */
    ghost var errors: nat
    /** How many renames and deletions have been refused although nothing was in their way. */
    ghost var refusals: nat
    /** How many renames have found a file at their target. */
    ghost var taken: nat

    constructor (destination: Name, part: Name, incoming: Content, ghost original: Content, files: map<Name, Content>)
      requires destination != part && part in files && files[part] == incoming
      ensures this.destination == destination && this.part == part && this.incoming == incoming
      ensures this.original == original && this.files == files
      ensures manifest == Manifest(false, None, false) && errors == refusals == taken == 0
    {
      this.destination, this.part, this.incoming, this.original := destination, part, incoming, original;
      this.files, manifest, errors, refusals, taken := files, Manifest(false, None, false), 0, 0, 0;
    }

    predicate At(name: Name, content: Content)
      reads this
    {
      name in files && files[name] == content
    }

    /** The original is in place, or where the journal says, or properly replaced. */
    ghost predicate OriginalSafe()
      reads this
    {
      || At(destination, original)
      || (manifest.recovery.Some? && At(manifest.recovery.value, original))
      || (manifest.completed && At(destination, incoming))
    }

    /** Nothing but the names in `mine` was changed; other programs may have added files. */
    twostate predicate Kept(mine: set<Name>)
      reads this
    {
      forall n :: n in old(files) && n !in mine ==> n in files && files[n] == old(files[n])
    }

    /** No journal write has failed and nothing was refused. */
    twostate predicate Smooth()
      reads this
    {
      errors == old(errors) && refusals == old(refusals) && taken == old(taken)
    }

    /** The three counts only grow. */
    twostate predicate Counted()
      reads this
    {
      errors >= old(errors) && refusals >= old(refusals) && taken >= old(taken)
    }

    // -------------------------------------------------------------------------------------
    // The disk

    /** Other programs may create files where there are none, though not the partial file. */
    method Outside()
      modifies this`files
      ensures Kept({}) && (part in files ==> part in old(files))
    {
      var more: map<Name, Content> := *;
      files := more - {part} + files;
    }

    /** A rename that never replaces; it happens or is refused. */
    method Rename(from: Name, to: Name) returns (r: Run<bool>)
      requires from in files && from != to
      modifies this`files, this`refusals, this`taken
      ensures r == Finished(true) || (r.Crashed? && from !in files) ==>
        to !in old(files) && from !in files && At(to, old(files[from]))
      ensures r == Finished(false) || (r.Crashed? && from in files) ==> At(from, old(files[from]))
      ensures Kept({from}) && (part in files && part != to ==> part in old(files))
      ensures refusals == old(refusals) + (if r == Finished(false) && to !in files then 1 else 0)
      ensures taken == old(taken) + (if r == Finished(false) && to in files then 1 else 0)
    {
      Outside();
      var dies, refused := *, *;
      if dies {
        return Crashed;
      }
      if to in files {
        taken := taken + 1;
        return Finished(false);
      }
      if refused {
        refusals := refusals + 1;
        return Finished(false);
      }
      files := files[to := files[from]] - {from};
      dies := *;
      return if dies then Crashed else Finished(true);
    }

    method WriteManifest(m: Manifest) returns (r: Run<bool>)
      modifies this`files, this`manifest, this`errors
      ensures Kept({}) && (part in files ==> part in old(files))
      ensures manifest == m || (manifest == old(manifest) && r != Finished(true))
      ensures errors == old(errors) + if r == Finished(false) then 1 else 0
    {
      Outside();
      var stored, fails, dies := *, *, *;
      if stored || !(fails || dies) {
        manifest := m;
      }
      if dies {
        return Crashed;
      }
      errors := errors + if fails then 1 else 0;
      return Finished(!fails);
    }

    method Delete(name: Name) returns (r: Run<bool>)
      requires name in files
      modifies this`files, this`refusals
      ensures Kept({name}) && (part in files ==> part in old(files))
      ensures r == Finished(true) ==> name !in files
      ensures r == Finished(false) ==> At(name, old(files[name]))
      ensures refusals == old(refusals) + if r == Finished(false) then 1 else 0
    {
      Outside();
      var dies, refused := *, *;
      if dies {
        return Crashed;
      }
      if refused {
        refusals := refusals + 1;
        return Finished(false);
      }
      files := files - {name};
      dies := *;
      return if dies then Crashed else Finished(true);
    }

    // -------------------------------------------------------------------------------------
    // Publishing

    /** `atomicPublish`; `ready` stands for the checks of names, handles and directories. */
    method AtomicPublish(replace: bool, ready: bool, spare: Name) returns (r: Run<Attempt>)
      requires destination != part && spare != destination && spare != part
      requires At(part, incoming) && manifest == Manifest(true, None, false)
      requires replace && ready ==> At(destination, original)
      modifies this
      ensures Kept(if replace && ready then {part, destination} else {part})
      ensures Counted()
      ensures ready && r.Finished? && Smooth() ==> r.value.published && r.value.recovery.None?
      ensures r.Finished? && r.value.published && r.value.recovery.Some? ==> refusals > old(refusals)
      ensures r.Finished? && !r.value.published && r.value.recovery.None? ==>
        errors == old(errors) || (!r.value.prepared && refusals == old(refusals) && taken == old(taken))
      ensures replace && ready ==> OriginalSafe()
      ensures replace && ready && r.Crashed? ==>
        (manifest == old(manifest) && At(part, incoming)) || manifest.recovery == Some(spare)
      ensures replace && ready && r.Finished? ==> Attempted(r.value, spare)
      ensures replace && ready && r.Finished? && !r.value.prepared ==> errors > old(errors)
      ensures !replace || !ready ==> manifest == old(manifest)
      ensures !ready && r.Finished? ==> !r.value.published
      ensures !replace || !ready ==> At(part, incoming) || (part !in files && At(destination, incoming))
      ensures (!replace || !ready) && r.Finished? ==>
        r.value.recovery.None? && !r.value.prepared && (r.value.published ==> !replace)
        && if r.value.published then part !in files else At(part, incoming)
    {
      if !ready {
        return Finished(Attempt(false, None, false));
      }
      if !replace {
        var moved :- Rename(part, destination);
        return Finished(Attempt(moved, None, false));
      }
      r := Replace(spare);
    }

    /** Journal the spare name and move the original there. */
    method Replace(spare: Name) returns (r: Run<Attempt>)
      requires destination != part && spare != destination && spare != part
      requires At(part, incoming) && At(destination, original) && manifest == Manifest(true, None, false)
      modifies this
      ensures Kept({part, destination}) && OriginalSafe()
      ensures Counted()
      ensures r.Finished? && Smooth() ==> r.value.published && r.value.recovery.None?
      ensures r.Finished? && r.value.published && r.value.recovery.Some? ==> refusals > old(refusals)
      ensures r.Finished? && !r.value.published && r.value.recovery.None? ==>
        errors == old(errors) || (!r.value.prepared && refusals == old(refusals) && taken == old(taken))
      ensures r.Crashed? ==> (manifest == old(manifest) && At(part, incoming)) || manifest.recovery == Some(spare)
      ensures r.Finished? ==> Attempted(r.value, spare)
      ensures r.Finished? && !r.value.prepared ==> errors > old(errors)
    {
      var prepared :- WriteManifest(Manifest(true, Some(spare), false));
      if !prepared {
        return Finished(Attempt(false, None, false));
      }
      var away :- Rename(destination, spare);
      if !away {
        return Finished(Attempt(false, None, true));
      }
      r := PutInPlace(spare);
    }

    /** Move the new file in, or the original back; journal completion; delete the original. */
    method PutInPlace(spare: Name) returns (r: Run<Attempt>)
      requires destination != part && spare != destination && spare != part
      requires At(part, incoming) && At(spare, original) && manifest == Manifest(true, Some(spare), false)
      modifies this
      ensures Kept({part, spare}) && OriginalSafe() && manifest.recovery == Some(spare)
      ensures Counted()
      ensures r.Finished? && Smooth() ==> r.value.published && r.value.recovery.None?
      ensures r.Finished? && r.value.published && r.value.recovery.Some? ==> refusals > old(refusals)
      ensures r.Finished? && !r.value.published && r.value.recovery.None? ==>
        errors == old(errors) || (!r.value.prepared && refusals == old(refusals) && taken == old(taken))
      ensures r.Finished? ==> r.value.prepared && Attempted(r.value, spare)
    {
      var placed :- Rename(part, destination);
      if !placed {
        var restored :- Rename(spare, destination);
        return Finished(Attempt(false, if restored then None else Some(spare), true));
      }
      var committed :- WriteManifest(Manifest(true, Some(spare), true));
      if !committed {
        return Finished(Attempt(false, Some(spare), true));
      }
      var deleted :- Delete(spare);
      return Finished(Attempt(true, if deleted then None else Some(spare), true));
    }

    /** What the answer of a replacement says about the disk. */
    ghost predicate Attempted(a: Attempt, spare: Name)
      reads this
    {
      && (a.published ==> At(destination, incoming) && part !in files && manifest == Manifest(true, Some(spare), true))
      && (a.published && a.recovery.None? ==> spare !in files)
      && (a.recovery.Some? ==> a.prepared && a.recovery == Some(spare) && At(spare, original))
      && (!a.published && a.recovery.None? ==> At(part, incoming) && At(destination, original))
      && (a.prepared ==> manifest.recovery == Some(spare))
      && (manifest.recovery == Some(spare) || manifest == Manifest(true, None, false))
    }

    /** The end of `readIncoming` for a verified file. */
    method Publish(replace: bool, ready: bool, spare: Name) returns (r: Run<Outcome>)
      requires destination != part && spare != destination && spare != part
      requires At(part, incoming) && manifest.recovery.None? && !manifest.completed
      requires replace ==> OriginalSafe()
      requires replace && ready ==> At(destination, original)
      modifies this
      ensures replace && ready ==> OriginalSafe()
      ensures !(replace && ready) ==> Kept({part})
      ensures Kept({part, destination})
      ensures Consistent() && Counted()
      ensures ready && r.Finished? && Smooth() ==>
        r.value.Committed? && At(destination, incoming) && manifest == Manifest(true, None, true)
      ensures !ready && r.Finished? && errors == old(errors) ==> r.value.Unchanged?
      ensures r.Finished? && r.value.CommittedWithRecovery? ==> refusals > old(refusals) && r.value.kept == spare
      ensures r.Finished? && r.value.RecoveryRequired? ==>
        r.value.named == spare && (errors > old(errors) || At(spare, original))
      ensures r.Finished? && r.value.Unchanged? && errors > old(errors) ==>
        refusals == old(refusals) && taken == old(taken)
      ensures r.Finished? && r.value.Unchanged? && errors == old(errors) ==> manifest == Manifest(true, None, false)
      ensures r.Finished? && r.value.Committed? && errors == old(errors) ==> manifest == Manifest(true, None, true)
      ensures r.Finished? && r.value.NotAttempted? ==> errors > old(errors)
      ensures r.Finished? && (r.value.NotAttempted? || r.value.Unchanged?) ==>
        At(part, incoming) && (replace && ready ==> At(destination, original))
      ensures r.Finished? && r.value.Committed? ==>
        At(destination, incoming) && part !in files && (replace ==> manifest.completed)
      ensures r.Finished? && r.value.CommittedWithRecovery? ==>
        replace && At(destination, incoming) && At(r.value.kept, original)
        && manifest == Manifest(true, Some(r.value.kept), true)
      ensures r.Finished? && r.value.RecoveryRequired? ==>
        replace && (At(r.value.named, original) || At(destination, original))
    {
      var begun :- WriteManifest(Manifest(true, None, false));
      if !begun {
        return Finished(NotAttempted);
      }
      var attempt :- AtomicPublish(replace, ready, spare);
      if !attempt.published {
        var terminal := attempt.recovery;
        if terminal.None? && attempt.prepared {
          var cleared :- WriteManifest(Manifest(true, None, false));
          if !cleared {
            terminal := Some(spare);
          }
        }
        return Finished(if terminal.None? then Unchanged else RecoveryRequired(terminal.value));
      }
      var recorded :- WriteManifest(Manifest(true, attempt.recovery, true));
      return Finished(if attempt.recovery.None? then Committed else CommittedWithRecovery(attempt.recovery.value));
    }

    /** What the next connection relies on: an unfinished journal that names no recovery file
        goes with a partial file still there, or with the new file in place. */
    ghost predicate Consistent()
      reads this
    {
      !manifest.completed && manifest.recovery.None? ==>
        At(part, incoming) || (part !in files && manifest.published && At(destination, incoming))
    }

    // -------------------------------------------------------------------------------------
    // The next connection for the same transfer

    method Reconnect() returns (a: Answer)
      ensures a.NeedsRecovery? ==> manifest.recovery == Some(a.at)
      ensures a.NeedsRecovery? <==> manifest.recovery.Some? && !manifest.completed
      ensures a.Resume? <==> manifest.recovery.None? && !manifest.completed && (part in files || !manifest.published)
      ensures a.AlreadyComplete? <==> !a.NeedsRecovery? && !a.Resume? && At(destination, incoming)
    {
      var validate := manifest.completed || (manifest.recovery.None? && manifest.published && part !in files);
      var complete := validate && destination in files && files[destination] == incoming;
      if !manifest.completed && manifest.recovery.Some? {
        return NeedsRecovery(manifest.recovery.value);
      }
      if validate && !complete {
        return NeedsReview;
      }
      return if complete then AlreadyComplete else Resume;
    }

    /** One connection of a transfer whose answer to a conflict is to replace: ask, and
        publish if the transfer may go on. Whatever dies or fails in it, the original is safe
        afterwards, so it is after any number of connections; once the new file is in place
        and journalled, no connection changes anything. */
    method Connect(ready: bool, spare: Name) returns (a: Answer, r: Run<Outcome>)
      requires destination != part && spare != destination && spare != part
      requires OriginalSafe() && Consistent()
      modifies this
      ensures OriginalSafe() && Consistent()
      ensures a.AlreadyComplete? ==> At(destination, incoming)
      ensures a.NeedsRecovery? ==> At(a.at, original) || At(destination, original)
      ensures !a.Resume? ==> files == old(files) && manifest == old(manifest)
      ensures old(manifest.completed) && old(At(destination, incoming)) ==> a.AlreadyComplete?
      ensures old(manifest.recovery.Some? && !manifest.completed) ==> a.NeedsRecovery?
      ensures old(manifest.recovery.None? && !manifest.completed && part in files) ==> a.Resume?
      ensures a.Resume? && ready && r.Finished? && Smooth() ==>
        r.value.Committed? && At(destination, incoming) && manifest == Manifest(true, None, true)
    {
      a := Reconnect();
      r := Finished(NotAttempted);
      if a.Resume? {
        r := Publish(true, ready, spare);
      }
    }
  }
}
