/**
  Applying an import package through a target of seven callbacks. Nothing is known of the
  callbacks: each may answer anything or throw. What is proved is about the trace of calls
  and answers, so an outcome is truthful as far as the target's own answers are.
*/
module ImportService {
  import opened Crash

  datatype Answer<T> = Returned(value: T) | Threw

  datatype Verdict = Success | Concurrent | Failed | Indeterminate | Exception

  /** What became of the backup file, up to what it restores to once it was written and read back. */
  datatype BackupFile<P, S> =
    | Aborted
    | Unbuilt
    | Unwritten
    | Unreadable
    | Altered
    | Restores(public: P, secret: Option<S>)

  /** One call and what came back. */
  datatype Event<P, S> =
    | ReadPublic(public: Answer<Option<P>>)
    | ReadSecret(secret: Answer<Option<Option<S>>>)
    | Backup(file: BackupFile<P, S>)
    | Begin(original: P, candidate: P, oldSecret: Option<S>, newSecret: Option<S>, verdict: Verdict)
    | Apply(to: P, from: P, verdict: Verdict)
    | WriteSecret(toSecret: Option<S>, fromSecret: Option<S>, verdict: Verdict)
    | Commit(verdict: Verdict)
    | Abort(verdict: Verdict)

  datatype Error =
    | Applied
    | InvalidTarget | TargetReadFailed | UnauthenticatedRequiresConsent | DowngradeRequiresConsent
    | BackupBuildFailed | BackupWriteFailed | BackupVerificationFailed
    | JournalBeginFailed | JournalCommitFailed | ConcurrentModification
    | PublicApplyFailed | SensitiveApplyFailed | VerificationFailed | RollbackFailed | IndeterminateState

  /** The package, what the user saw before, and what the user agreed to. */
  datatype Request<!P, !S> = Request(
    original: P, candidate: P, sensitive: Option<Option<S>>,
    authenticated: bool, weakens: (P, P) -> bool, allowUnauthenticated: bool, allowDowngrade: bool)

  predicate Consented<P, S>(q: Request<P, S>) {
    (q.authenticated || q.allowUnauthenticated) && (q.weakens(q.original, q.candidate) ==> q.allowDowngrade)
  }

  predicate Mutates<P, S>(e: Event<P, S>) {
    e.Begin? || e.Apply? || e.WriteSecret? || e.Commit? || e.Abort?
  }

  /** The calls before anything is changed: state and secret read as expected, a backup read
      back that restores to both, and both read again. */
  function Preflight<P, S>(q: Request<P, S>, secret: Option<S>): seq<Event<P, S>> {
    [ReadPublic(Returned(Some(q.original))), ReadSecret(Returned(Some(secret))),
     Backup(Restores(q.original, secret)),
     ReadPublic(Returned(Some(q.original))), ReadSecret(Returned(Some(secret)))]
  }

  function NewSecret<P, S>(q: Request<P, S>, secret: Option<S>): Option<S> {
    if q.sensitive.Some? then q.sensitive.value else secret
  }

  function Begun<P, S>(q: Request<P, S>, secret: Option<S>): seq<Event<P, S>> {
    Preflight(q, secret) + [Begin(q.original, q.candidate, secret, NewSecret(q, secret), Success)]
  }

  function Written<P, S>(q: Request<P, S>, secret: Option<S>): seq<Event<P, S>> {
    Begun(q, secret) + [Apply(q.candidate, q.original, Success)]
    + if q.sensitive.Some? then [WriteSecret(q.sensitive.value, secret, Success)] else []
  }

  /** The last calls: the original read back, the secret too, and the journal dropped. */
  predicate UndoneAtEnd<P(==), S(==)>(t: seq<Event<P, S>>, q: Request<P, S>, secret: Option<S>, verifySecret: bool) {
    && |t| >= 3
    && t[|t| - 3] == ReadPublic(Returned(Some(q.original)))
    && t[|t| - 2].ReadSecret?
    && (verifySecret && q.sensitive.Some? ==> t[|t| - 2] == ReadSecret(Returned(Some(secret))))
    && t[|t| - 1] == Abort(Success)
  }

  /** The last calls of a success: the candidate read back, the secret too, and the commit. */
  predicate ConfirmedAtEnd<P(==), S(==)>(t: seq<Event<P, S>>, q: Request<P, S>, secret: Option<S>) {
    && |t| >= 3 && t[..|t| - 3] == Written(q, secret)
    && t[|t| - 3] == ReadPublic(Returned(Some(q.candidate)))
    && t[|t| - 2].ReadSecret?
    && (q.sensitive.Some? ==> t[|t| - 2] == ReadSecret(Returned(Some(q.sensitive.value))))
    && t[|t| - 1] == Commit(Success)
  }

  class Target<P(==), S(==)> {
    ghost var trace: seq<Event<P, S>>

    constructor ()
      ensures trace == []
    {
      trace := [];
    }

    method CallReadPublic() returns (a: Answer<Option<P>>)
      modifies this
      ensures trace == old(trace) + [ReadPublic(a)]
    {
      a := *;
      trace := trace + [ReadPublic(a)];
    }

    method CallReadSecret() returns (a: Answer<Option<Option<S>>>)
      modifies this
      ensures trace == old(trace) + [ReadSecret(a)]
    {
      a := *;
      trace := trace + [ReadSecret(a)];
    }

    method CallApply(to: P, from: P) returns (v: Verdict)
      modifies this
      ensures trace == old(trace) + [Apply(to, from, v)]
    {
      v := *;
      trace := trace + [Apply(to, from, v)];
    }

    method CallWriteSecret(to: Option<S>, from: Option<S>) returns (v: Verdict)
      modifies this
      ensures trace == old(trace) + [WriteSecret(to, from, v)]
    {
      v := *;
      trace := trace + [WriteSecret(to, from, v)];
    }

    method CallBegin(original: P, candidate: P, oldSecret: Option<S>, newSecret: Option<S>) returns (v: Verdict)
      modifies this
      ensures trace == old(trace) + [Begin(original, candidate, oldSecret, newSecret, v)]
    {
      v := *;
      trace := trace + [Begin(original, candidate, oldSecret, newSecret, v)];
    }

    method CallCommit() returns (v: Verdict)
      modifies this
      ensures trace == old(trace) + [Commit(v)]
    {
      v := *;
      trace := trace + [Commit(v)];
    }

    method CallAbort() returns (v: Verdict)
      modifies this
      ensures trace == old(trace) + [Abort(v)]
    {
      v := *;
      trace := trace + [Abort(v)];
    }

    /** Builds, writes and reads back the backup; `None` is success. Only a file equal to what
        was built, that the backup password opens, and that restores to both is accepted. */
    method MakeBackup(q: Request<P, S>, secret: Option<S>) returns (e: Option<Error>)
      modifies this
      ensures |trace| == |old(trace)| + 1 && old(trace) <= trace && trace[|old(trace)|].Backup?
      ensures e.None? <==> trace[|old(trace)|] == Backup(Restores(q.original, secret))
      ensures e.Some? ==> BackedUp(trace[|old(trace)|].file, e.value)
    {
      var file: BackupFile<P, S> := *;
      trace := trace + [Backup(file)];
      match file
      case Aborted => return Some(TargetReadFailed);
      case Unbuilt => return Some(BackupBuildFailed);
      case Unwritten => return Some(BackupWriteFailed);
      case Unreadable => return Some(BackupVerificationFailed);
      case Altered => return Some(BackupVerificationFailed);
      case Restores(public, held) =>
        return if public == q.original && held == secret then None else Some(BackupVerificationFailed);
    }

    /** `apply` up to the journal; `error.None?` is to go on. */
    method CheckBefore(q: Request<P, S>) returns (error: Option<Error>, secret: Option<S>)
      requires trace == []
      modifies this
      ensures error.None? ==> Consented(q) && trace == Preflight(q, secret)
      ensures error.Some? ==> trace != [] && Refused(trace, q, error.value) && |trace| <= 5
      ensures forall i :: 0 <= i < |trace| ==> !Mutates(trace[i])
    {
      secret := None;
      var current := CallReadPublic();
      if current.Threw? || current.value.None? {
        return Some(TargetReadFailed), secret;
      }
      if current.value.value != q.original {
        return Some(ConcurrentModification), secret;
      }
      if !q.authenticated && !q.allowUnauthenticated {
        return Some(UnauthenticatedRequiresConsent), secret;
      }
      if q.weakens(q.original, q.candidate) && !q.allowDowngrade {
        return Some(DowngradeRequiresConsent), secret;
      }
      var read := CallReadSecret();
      if read.Threw? || read.value.None? {
        return Some(TargetReadFailed), secret;
      }
      secret := read.value.value;
      error := MakeBackup(q, secret);
      if error.Some? {
        return;
      }
      current := CallReadPublic();
      if current.Threw? || current.value.None? {
        return Some(TargetReadFailed), secret;
      }
      if current.value.value != q.original {
        return Some(ConcurrentModification), secret;
      }
      read := CallReadSecret();
      if read.Threw? || read.value.None? {
        return Some(TargetReadFailed), secret;
      }
      if read.value.value != secret {
        return Some(ConcurrentModification), secret;
      }
      assert trace == Preflight(q, secret);
    }

    /** The `rollback` closure. */
    method Rollback(q: Request<P, S>, secret: Option<S>, restoreSecret: bool, verifySecret: bool) returns (ok: bool)
      requires trace != []
      modifies this
      ensures old(trace) < trace && trace[|old(trace)|].Apply?
      ensures trace[|old(trace)|].to == q.original && trace[|old(trace)|].from == q.candidate
      ensures ok && restoreSecret && q.sensitive.Some? ==>
        |trace| == |old(trace)| + 5 && trace[|old(trace)| + 1].WriteSecret?
        && trace[|old(trace)| + 1].toSecret == secret && trace[|old(trace)| + 1].fromSecret == q.sensitive.value
      ensures RestoresSecret(trace, q, secret, |old(trace)|, restoreSecret)
      ensures ok ==> UndoneAtEnd(trace, q, secret, verifySecret)
      ensures !ok ==> |trace| >= 2 && RollbackBroke(trace, q, secret)
      ensures Reverts(trace[|old(trace)|], q) && !trace[|trace| - 1].Commit?
    {
      var v := CallApply(q.original, q.candidate);
      if v.Exception? {
        return false;
      }
      if restoreSecret && q.sensitive.Some? {
        v := CallWriteSecret(secret, q.sensitive.value);
        if v.Exception? {
          return false;
        }
      }
      var public := CallReadPublic();
      if public.Threw? {
        return false;
      }
      var read := CallReadSecret();
      if read.Threw? {
        return false;
      }
      var publicVerified := public.value == Some(q.original);
      var secretVerified := !verifySecret || q.sensitive.None? || read.value == Some(secret);
      if !publicVerified || !secretVerified {
        return false;
      }
      v := CallAbort();
      return v.Success?;
    }

    /** `apply`; `complete` says that no callback is missing. */
    method ApplyImport(q: Request<P, S>, complete: bool) returns (e: Error, ghost secret: Option<S>)
      requires trace == []
      modifies this
      ensures !complete ==> trace == [] && e.InvalidTarget?
      ensures complete ==> trace != [] && if |trace| <= 5 then Refused(trace, q, e) else Attempted(trace, q, secret, e)
      ensures e.Applied? ==> complete && Consented(q) && ConfirmedAtEnd(trace, q, secret)
      ensures Undoing(e) ==> Begun(q, secret) <= trace && UndoneAtEnd(trace, q, secret, true)
      ensures Undoing(e) || e.RollbackFailed? || e.JournalCommitFailed? ==> Explains(trace, q, secret, e)
      ensures (exists i :: 0 <= i < |trace| && Mutates(trace[i])) ==> Consented(q) && Preflight(q, secret) <= trace
      ensures e.ConcurrentModification? && (exists i :: 0 <= i < |trace| && Mutates(trace[i])) ==>
        trace[|trace| - 1] == Abort(Success) || (trace[|trace| - 1].Begin? && trace[|trace| - 1].verdict.Concurrent?)
      ensures e.TargetReadFailed? && (exists i :: 0 <= i < |trace| && Mutates(trace[i])) ==>
        Mutates(trace[|trace| - 1]) && trace[|trace| - 1].verdict.Exception?
      ensures trace != [] && trace[|trace| - 1] == Commit(Exception) ==> e.TargetReadFailed?
    {
      if !complete {
        return InvalidTarget, None;
      }
      var error, found := CheckBefore(q);
      if error.Some? {
        return error.value, found;
      }
      var begun := CallBegin(q.original, q.candidate, found, NewSecret(q, found));
      if begun.Exception? {
        return TargetReadFailed, found;
      }
      if begun.Concurrent? {
        return ConcurrentModification, found;
      }
      if !begun.Success? {
        return JournalBeginFailed, found;
      }
      assert trace == Begun(q, found);
      e := ApplyBegun(q, found);
      secret := found;
    }

    /** `apply` from the journal on. */
    method ApplyBegun(q: Request<P, S>, secret: Option<S>) returns (e: Error)
      requires trace == Begun(q, secret)
      modifies this
      ensures Begun(q, secret) < trace && Explains(trace, q, secret, e)
      ensures e.Applied? ==> ConfirmedAtEnd(trace, q, secret)
      ensures Undoing(e) ==> UndoneAtEnd(trace, q, secret, true)
      ensures e.ConcurrentModification? ==> trace[|trace| - 1] == Abort(Success)
      ensures e.TargetReadFailed? ==> Mutates(trace[|trace| - 1]) && trace[|trace| - 1].verdict.Exception?
      ensures trace[|trace| - 1] == Commit(Exception) ==> e.TargetReadFailed?
    {
      var public := CallApply(q.candidate, q.original);
      if public.Exception? || public.Indeterminate? || public.Failed? {
        var undone := Rollback(q, secret, false, true);
        return if !undone then RollbackFailed else if public.Failed? then PublicApplyFailed else IndeterminateState;
      }
      if public.Concurrent? {
        var aborted := CallAbort();
        return if aborted.Exception? then TargetReadFailed
          else if aborted.Success? then ConcurrentModification else JournalCommitFailed;
      }
      if q.sensitive.Some? {
        var written := CallWriteSecret(q.sensitive.value, secret);
        if !written.Success? {
          var undone := Rollback(q, secret, written.Exception? || written.Indeterminate?, !written.Concurrent?);
          return if !undone then RollbackFailed
            else if written.Concurrent? then ConcurrentModification
            else if written.Failed? then SensitiveApplyFailed else IndeterminateState;
        }
      }
      assert trace == Written(q, secret);
      e := Confirm(q, secret);
    }

    /** `apply` from reading back on. */
    method Confirm(q: Request<P, S>, secret: Option<S>) returns (e: Error)
      requires trace == Written(q, secret)
      modifies this
      ensures Written(q, secret) < trace && !e.PublicApplyFailed? && !e.SensitiveApplyFailed?
              && Explains(trace, q, secret, e)
      ensures TakesBack(trace, q, secret, |Written(q, secret)|)
      ensures e.Applied? ==> ConfirmedAtEnd(trace, q, secret)
      ensures Undoing(e) ==> UndoneAtEnd(trace, q, secret, true)
      ensures e.ConcurrentModification? ==> trace[|trace| - 1] == Abort(Success)
      ensures e.TargetReadFailed? ==> Mutates(trace[|trace| - 1]) && trace[|trace| - 1].verdict.Exception?
      ensures trace[|trace| - 1] == Commit(Exception) ==> e.TargetReadFailed?
    {
      var public := CallReadPublic();
      var read := Threw;
      if public.Returned? {
        read := CallReadSecret();
      }
      if public.Threw? || read.Threw? {
        e := GiveUp(q, secret, IndeterminateState);
        return;
      }
      var publicVerified := public.value == Some(q.candidate);
      var secretVerified := q.sensitive.None? || read.value == Some(q.sensitive.value);
      if !publicVerified || !secretVerified {
        e := GiveUp(q, secret, VerificationFailed);
        return;
      }
      e := CommitConfirmed(q, secret);
    }

    /** Everything was written and could not be read back. */
    method GiveUp(q: Request<P, S>, secret: Option<S>, failure: Error) returns (e: Error)
      requires Written(q, secret) < trace && (failure.IndeterminateState? || failure.VerificationFailed?)
      requires failure.IndeterminateState? ==>
        trace[|trace| - 1] ==
        if |trace| == |Written(q, secret)| + 1 then ReadPublic(Threw) else ReadSecret(Threw)
      requires |trace| <= |Written(q, secret)| + 2
      requires failure.VerificationFailed? ==>
        |trace| == |Written(q, secret)| + 2 && ReadBackDiffers(trace, q, |Written(q, secret)|)
      modifies this
      ensures old(trace) < trace && (e == failure || e.RollbackFailed?) && Explains(trace, q, secret, e)
      ensures e == failure ==> UndoneAtEnd(trace, q, secret, true)
      ensures RestoresSecret(trace, q, secret, |old(trace)|, true) && !trace[|trace| - 1].Commit?
    {
      ghost var k := |trace|;
      var undone := Rollback(q, secret, true, true);
      assert Reverts(trace[k], q);
      return if undone then failure else RollbackFailed;
    }

    /** `apply` once the candidate was read back. */
    method CommitConfirmed(q: Request<P, S>, secret: Option<S>) returns (e: Error)
      requires |trace| == |Written(q, secret)| + 2 && Written(q, secret) < trace
      requires trace[|Written(q, secret)|] == ReadPublic(Returned(Some(q.candidate)))
      requires var read := trace[|trace| - 1];
        read.ReadSecret? && read.secret.Returned?
        && (q.sensitive.Some? ==> read.secret.value == Some(q.sensitive.value))
      modifies this
      ensures old(trace) < trace && trace[|old(trace)|].Commit?
      ensures match trace[|old(trace)|].verdict
        case Success => e.Applied?
        case Exception => e.TargetReadFailed?
        case Concurrent => e.ConcurrentModification? || e.RollbackFailed?
        case _ => e.JournalCommitFailed?
      ensures Explains(trace, q, secret, e)
      ensures trace[|old(trace)|] == Commit(Concurrent) ==> RestoresSecret(trace, q, secret, |old(trace)| + 1, false)
      ensures e.ConcurrentModification? ==> trace[|trace| - 1] == Abort(Success)
      ensures trace[|old(trace)|] != Commit(Concurrent) <==> |trace| == |old(trace)| + 1
      ensures trace[|trace| - 1] == Commit(Exception) ==> e.TargetReadFailed?
    {
      var committed := CallCommit();
      if committed.Exception? {
        return TargetReadFailed;
      }
      if committed.Success? {
        return Applied;
      }
      if committed.Concurrent? {
        var undone := Rollback(q, secret, false, false);
        return if undone then ConcurrentModification else RollbackFailed;
      }
      return JournalCommitFailed;
    }
  }

  /** What went wrong is in the trace where it happened. */
  predicate Explains<P(==), S(==)>(t: seq<Event<P, S>>, q: Request<P, S>, secret: Option<S>, e: Error) {
    var n := |Begun(q, secret)|;
    && (e.Applied? || e.TargetReadFailed? || e.ConcurrentModification? || e.RollbackFailed? || e.JournalCommitFailed?
        || Undoing(e))
    && (e.PublicApplyFailed? ==> |t| > n && t[n] == Apply(q.candidate, q.original, Failed))
    && (e.SensitiveApplyFailed? ==>
          |t| > n + 1 && q.sensitive.Some? && t[n] == Apply(q.candidate, q.original, Success)
          && t[n + 1] == WriteSecret(q.sensitive.value, secret, Failed))
    && (e.VerificationFailed? ==>
          Written(q, secret) <= t && |t| > |Written(q, secret)| + 1 && ReadBackDiffers(t, q, |Written(q, secret)|))
    && (e.IndeterminateState? ==> Unsettled(t, q, secret))
    && (e.ConcurrentModification? ==> Outrun(t, q, secret))
    && (|t| > n && t[n].Apply? && !t[n].verdict.Success? && !t[n].verdict.Concurrent? ==>
          RestoresSecret(t, q, secret, n + 1, false))
    && (q.sensitive.Some? && |t| > n + 1 && t[n + 1].WriteSecret? && !t[n + 1].verdict.Success? ==>
          RestoresSecret(t, q, secret, n + 2, t[n + 1].verdict.Exception? || t[n + 1].verdict.Indeterminate?))
    && (e.RollbackFailed? ==> |t| >= 2 && RollbackBroke(t, q, secret) && exists k :: n < k < |t| && Reverts(t[k], q))
    && (e.JournalCommitFailed? ==>
          |t| > n + 1
          && if t[n] == Apply(q.candidate, q.original, Concurrent)
             then t[|t| - 1] in {Abort(Concurrent), Abort(Failed), Abort(Indeterminate)}
             else Written(q, secret) <= t && t[|t| - 1] in {Commit(Failed), Commit(Indeterminate)})
  }

  /** What an error says once the journal was to be begun. */
  predicate Attempted<P(==), S(==)>(t: seq<Event<P, S>>, q: Request<P, S>, secret: Option<S>, e: Error)
    requires |t| > 5
  {
    && Consented(q) && t[..5] == Preflight(q, secret)
    && t[5].Begin? && t[5] == Begin(q.original, q.candidate, secret, NewSecret(q, secret), t[5].verdict)
    && match t[5].verdict {
      case Success => |t| > 6 && Explains(t, q, secret, e)
      case Exception => |t| == 6 && e.TargetReadFailed?
      case Concurrent => |t| == 6 && e.ConcurrentModification?
      case _ => |t| == 6 && e.JournalBeginFailed?
    }
  }

  predicate BackedUp<P, S>(file: BackupFile<P, S>, e: Error) {
    match e
    case TargetReadFailed => file.Aborted?
    case BackupBuildFailed => file.Unbuilt?
    case BackupWriteFailed => file.Unwritten?
    case BackupVerificationFailed => file.Unreadable? || file.Altered? || file.Restores?
    case _ => false
  }

  /** Why nothing was begun: the last call before has gone wrong, or a consent was missing. */
  predicate Refused<P(==), S(==)>(t: seq<Event<P, S>>, q: Request<P, S>, e: Error)
    requires t != []
  {
    var last := t[|t| - 1];
    var first := [ReadPublic(Returned(Some(q.original)))];
    match e
    case TargetReadFailed => Unread(last)
    case ConcurrentModification =>
      || (last.ReadPublic? && last.public.Returned? && last.public.value.Some? && last.public.value.value != q.original)
      || (|t| == 5 && t[1].ReadSecret? && last.ReadSecret? && last.secret.Returned? && last.secret.value.Some?
          && last != t[1])
    case UnauthenticatedRequiresConsent => t == first && !q.authenticated && !q.allowUnauthenticated
    case DowngradeRequiresConsent =>
      t == first && (q.authenticated || q.allowUnauthenticated) && q.weakens(q.original, q.candidate)
      && !q.allowDowngrade
    case BackupBuildFailed => last == Backup(Unbuilt)
    case BackupWriteFailed => last == Backup(Unwritten)
    case BackupVerificationFailed =>
      last.Backup? && t[1 % |t|].ReadSecret? && t[1 % |t|].secret.Returned? && t[1 % |t|].secret.value.Some?
      && !last.file.Aborted? && !last.file.Unbuilt? && !last.file.Unwritten?
      && last.file != Restores(q.original, t[1 % |t|].secret.value.value)
    case _ => false
  }

  /** A reading that threw or gave nothing. */
  predicate Unread<P, S>(e: Event<P, S>) {
    match e
    case ReadPublic(a) => a.Threw? || a.value.None?
    case ReadSecret(a) => a.Threw? || a.value.None?
    case Backup(file) => file.Aborted?
    case _ => false
  }

  /** A rollback that begins at `k` writes the old secret back if and only if that is asked for
      and the state was written back without an exception. */
  predicate RestoresSecret<P(==), S(==)>(t: seq<Event<P, S>>, q: Request<P, S>, secret: Option<S>, k: nat,
                                         wanted: bool) {
    k < |t| && t[k].Apply? &&
    (if wanted && q.sensitive.Some? && !t[k].verdict.Exception? then
       |t| > k + 1 && t[k + 1].WriteSecret? && t[k + 1].toSecret == secret && t[k + 1].fromSecret == q.sensitive.value
     else |t| > k + 1 ==> !t[k + 1].WriteSecret?)
  }

  /** What follows once everything was written, from `m` on: a reading that threw or differs is
      rolled back with the secret, a commit that met another change without it. */
  predicate TakesBack<P(==), S(==)>(t: seq<Event<P, S>>, q: Request<P, S>, secret: Option<S>, m: nat)
    requires m < |t|
  {
    && (t[m] == ReadPublic(Threw) ==> RestoresSecret(t, q, secret, m + 1, true))
    && (|t| > m + 1 && t[m] != ReadPublic(Threw) && (t[m + 1] == ReadSecret(Threw) || ReadBackDiffers(t, q, m)) ==>
          RestoresSecret(t, q, secret, m + 2, true))
    && (|t| > m + 2 && t[m].ReadPublic? && t[m + 1].ReadSecret? && t[m + 2] == Commit(Concurrent) ==>
          RestoresSecret(t, q, secret, m + 3, false))
  }

  /** The first call of a rollback. */
  predicate Reverts<P(==), S>(e: Event<P, S>, q: Request<P, S>) {
    e.Apply? && e.to == q.original && e.from == q.candidate
  }

  /** The two readings from `m` on were answered, and not both with the candidate. */
  predicate ReadBackDiffers<P(==), S(==)>(t: seq<Event<P, S>>, q: Request<P, S>, m: nat)
    requires m + 1 < |t|
  {
    && t[m].ReadPublic? && t[m].public.Returned? && t[m + 1].ReadSecret? && t[m + 1].secret.Returned?
    && (t[m].public.value != Some(q.candidate)
        || (q.sensitive.Some? && t[m + 1].secret.value != Some(q.sensitive.value)))
  }

  /** A write whose outcome is not known, or a reading of its result that threw. */
  predicate Unsettled<P(==), S(==)>(t: seq<Event<P, S>>, q: Request<P, S>, secret: Option<S>) {
    var n, m := |Begun(q, secret)|, |Written(q, secret)|;
    || (|t| > n && t[n] in {Apply(q.candidate, q.original, Indeterminate), Apply(q.candidate, q.original, Exception)})
    || (|t| > n + 1 && q.sensitive.Some?
        && t[n + 1] in {WriteSecret(q.sensitive.value, secret, Indeterminate),
                        WriteSecret(q.sensitive.value, secret, Exception)})
    || (|t| > m && t[m] == ReadPublic(Threw))
    || (|t| > m + 1 && t[m + 1] == ReadSecret(Threw))
  }

  /** One of the three conditional calls has met a change of somebody else. */
  predicate Outrun<P(==), S(==)>(t: seq<Event<P, S>>, q: Request<P, S>, secret: Option<S>) {
    var n, m := |Begun(q, secret)|, |Written(q, secret)|;
    || (|t| > n && t[n] == Apply(q.candidate, q.original, Concurrent))
    || (|t| > n + 1 && q.sensitive.Some? && t[n + 1] == WriteSecret(q.sensitive.value, secret, Concurrent))
    || (|t| > m + 2 && t[m + 2] == Commit(Concurrent))
  }

  /** The last call is where a rollback stopped: it threw, read back something else, or the abort failed. */
  predicate RollbackBroke<P(==), S(==)>(t: seq<Event<P, S>>, q: Request<P, S>, secret: Option<S>)
    requires |t| >= 2
  {
    match t[|t| - 1]
    case Apply(_, _, v) => v.Exception?
    case WriteSecret(_, _, v) => v.Exception?
    case ReadPublic(a) => a.Threw?
    case ReadSecret(a) => a != Returned(Some(secret)) || t[|t| - 2] != ReadPublic(Returned(Some(q.original)))
    case Abort(v) => !v.Success?
    case _ => false
  }

  /** Errors that say the import was undone. */
  predicate Undoing(e: Error) {
    e.PublicApplyFailed? || e.SensitiveApplyFailed? || e.VerificationFailed? || e.IndeterminateState?
  }
}
