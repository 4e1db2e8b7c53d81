/**
  The controller between the profile store, the screen layout and the authorization gate.
  Services and observers may fail or throw at any call, and observers do not call back in.
  The store is taken to be truthful: what it reports of a generation is what `contents` says,
  and a generation never changes.
*/
module ProfileController {
  import opened Crash

  type Kind = nat
  type Layout = nat
  type Device = nat
  type Permission = nat
  /** 0 stands for the empty string. */
  type Generation = nat

  datatype Profile = Profile(kind: Kind, layout: Layout, grants: set<(Device, Permission)>)

  /** What a generation holds: the active kind and the profiles. */
  datatype Stored = Stored(kind: Kind, profiles: map<Kind, Profile>) {
    function Active(): Option<Profile> {
      if kind in profiles then Some(profiles[kind]) else None
    }
  }

  /** The conditional mutations of the store. */
  datatype Change =
    | SetActive(kind: Kind)
    | ReplaceProfile(profile: Profile)
    | ReplaceAll(profiles: map<Kind, Profile>, active: Kind)

  function Changed(s: Stored, change: Change): Stored {
    match change
    case SetActive(kind) => s.(kind := kind)
    case ReplaceProfile(profile) => s.(profiles := s.profiles[profile.kind := profile])
    case ReplaceAll(profiles, active) => Stored(active, profiles)
  }

  /** The same with another profile of one kind. */
  function With(s: Stored, profile: Profile): Stored {
    Stored(s.kind, s.profiles[profile.kind := profile])
  }

  /** The profile that a mutation reports as promoted. */
  function Promoted(s: Stored, change: Change): Option<Profile> {
    var kind :=
      match change {
        case SetActive(kind) => kind
        case ReplaceProfile(profile) => profile.kind
        case ReplaceAll(_, active) => active
      };
    if kind in s.profiles then Some(s.profiles[kind]) else None
  }

  /** What there was before an operation and how the store gets it back; `promotes` says
      whether undoing it asks for the promoted profile. */
  datatype Before = Before(undo: Change, promotes: bool, kind: Kind, profile: Profile, layout: Layout)

  datatype Saved = Ok | Concurrent | Invalid | Unknown | SettingsError

  datatype Mutation = Mutation(result: Saved, generation: Generation, promoted: Option<Profile>)

  datatype Result =
    | Success | Unchanged | Busy | ExternalConfig | InvalidProfile | PersistenceError | ConcurrentModification
    | NeedsConsent | Indeterminate | Reentrant | WrongThread

  /** What a call gives back, or that it threw; with `:-` the exception goes on. */
  datatype Answer<+T> = Returned(value: T) | Threw {
    predicate IsFailure() {
      Threw?
    }

    function PropagateFailure<U>(): Answer<U>
      requires Threw?
    {
      Threw
    }

    function Extract(): T
      requires Returned?
    {
      value
    }
  }

  /** `persistenceResult` without its side effect. */
  function Report(s: Saved): Result {
    match s
    case Ok => Success
    case Concurrent => ConcurrentModification
    case Invalid => InvalidProfile
    case Unknown => Indeterminate
    case SettingsError => PersistenceError
  }

  /** What an operation answers when the store refuses its mutation. */
  predicate Told(s: Saved, r: Result) {
    && (s.Concurrent? <==> r.ConcurrentModification?)
    && (s.Invalid? <==> r.InvalidProfile?)
    && (s.Unknown? <==> r.Indeterminate?)
    && (s.SettingsError? <==> r.PersistenceError?)
  }

  /** The answers of an operation that has begun. */
  predicate Concluded(r: Result) {
    r.Success? || r.PersistenceError? || r.ConcurrentModification? || r.InvalidProfile? || r.Indeterminate?
  }

  /** A mutation that did what it was asked and says all that it is asked. */
  predicate Done(a: Answer<Mutation>, change: Change) {
    a.Returned? && a.value.result.Ok? && a.value.generation != 0 && (a.value.promoted.Some? || change.ReplaceAll?)
  }

  /** Whether the server is busy or runs on an external configuration. */
  function Hindrance(busy: Answer<bool>, external: Answer<bool>): (h: Answer<Option<Result>>)
    ensures h == Returned(Some(Busy)) <==> busy == Returned(true)
    ensures h == Returned(Some(ExternalConfig)) <==> busy == Returned(false) && external == Returned(true)
    ensures h == Returned(None) <==> busy == Returned(false) && external == Returned(false)
    ensures h.Returned? ==> h.value in {None, Some(Busy), Some(ExternalConfig)}
  {
    if busy.Threw? then Threw
    else if busy.value then Returned(Some(Busy))
    else if external.Threw? then Threw
    else Returned(if external.value then Some(ExternalConfig) else None)
  }

  /** What hinders an operation is its answer. */
  predicate Hindered(busy: Answer<bool>, external: Answer<bool>, a: Answer<Result>) {
    && (busy == Returned(true) ==> a == Returned(Busy))
    && (busy == Returned(false) && external == Returned(true) ==> a == Returned(ExternalConfig))
  }

  class Controller {
    const kinds: set<Kind>
    const contents: Generation -> Stored
    const valid: Profile -> bool

    var gateClosed: bool
    var published: Option<Profile>
    var activeKind: Option<Kind>
    var activeProfile: Option<Profile>
    var generation: Option<Generation>
    var initialized: bool
    var inProgress: bool

    /** The layout of the server, and the generation that the store has. */
    var layout: Layout
    var current: Generation

    /** How many services have thrown, refused, or reported a hindrance so far. */
    ghost var troubles: nat
    /** What the store has answered to mutations so far. */
    ghost var answers: seq<Saved>
    /** The layouts that were to be applied so far, and whether they were. */
    ghost var layouts: seq<(Layout, bool)>
    /** What the verified readings of the store have answered so far, to the consumer and after it. */
    ghost var verdicts: seq<Answer<Saved>>
    /** How many observers have thrown when they were told that everything is closed. */
    ghost var deaf: nat

    ghost predicate Valid()
      reads this
    {
      && Fitting()
      && (initialized ==> activeKind.Some? && activeProfile.Some? && generation.Some?)
      && (gateClosed ==> published.None?)
      && (!gateClosed ==> initialized && published == activeProfile)
    }

    predicate Fitting()
      reads this
    {
      && (activeProfile.Some? ==> valid(activeProfile.value) && activeKind == Some(activeProfile.value.kind))
      && (activeProfile.Some? && generation.Some? ==> Adopted(generation.value))
    }

    constructor (kinds: set<Kind>, contents: Generation -> Stored, valid: Profile -> bool, layout: Layout,
                 current: Generation)
      ensures Valid() && gateClosed && !initialized && !inProgress
      ensures this.kinds == kinds && this.contents == contents && this.valid == valid && this.layout == layout
              && this.current == current
    {
      this.kinds, this.contents, this.valid, this.layout, this.current := kinds, contents, valid, layout, current;
      gateClosed, published, initialized, inProgress := true, None, false, false;
      activeKind, activeProfile, generation := None, None, None;
      troubles, answers, layouts, verdicts, deaf := 0, [], [], [], 0;
    }

    // -------------------------------------------------------------------------------------
    // The gate

    method CloseGate()
      modifies this`gateClosed, this`published
      ensures gateClosed && published.None?
    {
      gateClosed, published := true, None;
    }

    method PublishProfile()
      requires activeProfile.Some?
      modifies this`gateClosed, this`published
      ensures !gateClosed && published == activeProfile
    {
      gateClosed, published := false, activeProfile;
    }

    /** Observers may throw once everything is closed. */
    method FailClosed() returns (a: Answer<()>)
      modifies this`gateClosed, this`published, this`initialized, this`activeKind, this`activeProfile,
               this`generation, this`troubles, this`deaf
      ensures Valid() && gateClosed && !initialized && activeKind.None? && activeProfile.None? && generation.None?
      ensures troubles == old(troubles) + (if a.Returned? then 0 else 1)
      ensures deaf == old(deaf) + (if a.Returned? then 0 else 1)
    {
      CloseGate();
      initialized, activeKind, activeProfile, generation := false, None, None, None;
      a := Ask(_ => true);
      deaf := deaf + if a.Returned? then 0 else 1;
    }

    /** What a permission check answers: what the published profile requests and the registry
        allows now. A permission granted by the gate is one the active profile requests. */
    method EffectiveAllows(device: Device, permission: Permission, single: bool, allows: Answer<bool>)
        returns (ok: bool)
      requires Valid()
      ensures ok <==> !gateClosed && device != 0 && single && allows == Returned(true)
                      && activeProfile.Some? && (device, permission) in activeProfile.value.grants
      ensures ok ==> valid(activeProfile.value) && activeKind == Some(activeProfile.value.kind)
    {
      if gateClosed || published.None? || device == 0 || !single {
        return false;
      }
      return (device, permission) in published.value.grants && allows == Returned(true);
    }

    // -------------------------------------------------------------------------------------
    // Services

    /** A service answers anything or throws; `good` says which answers are hoped for. */
    method Ask<T>(ghost good: T -> bool) returns (a: Answer<T>)
      modifies this`troubles
      ensures troubles == old(troubles) + if a.Returned? && good(a.value) then 0 else 1
    {
      a := *;
      troubles := troubles + if a.Returned? && good(a.value) then 0 else 1;
    }

    /** Something that is granted or not. */
    method Granted() returns (ok: bool)
      modifies this`troubles
      ensures troubles == old(troubles) + if ok then 0 else 1
    {
      ok := *;
      troubles := troubles + if ok then 0 else 1;
    }

    /** The store is asked once more about the generation. */
    method Verify() returns (a: Answer<Saved>)
      modifies this`troubles, this`verdicts
      ensures troubles == old(troubles) + if a == Returned(Ok) then 0 else 1
      ensures verdicts == old(verdicts) + [a]
    {
      a := Ask((s: Saved) => s.Ok?);
      verdicts := verdicts + [a];
    }

    method SnapshotLayout() returns (a: Answer<Layout>)
      modifies this`troubles
      ensures a.Returned? ==> a.value == layout
      ensures troubles == old(troubles) + if a.Returned? then 0 else 1
    {
      var ok := Granted();
      return if ok then Returned(layout) else Threw;
    }

    /** A layout that was not applied for sure may be applied in part. */
    method ApplyLayout(l: Layout) returns (a: Answer<bool>)
      modifies this`layout, this`troubles, this`layouts
      ensures a == Returned(true) ==> layout == l
      ensures troubles == old(troubles) + if a == Returned(true) then 0 else 1
      ensures layouts == old(layouts) + [(l, a == Returned(true))]
    {
      a := Ask((b: bool) => b);
      layout := *;
      if a == Returned(true) {
        layout := l;
      }
      layouts := layouts + [(l, a == Returned(true))];
    }

    method TryLayout(l: Layout) returns (ok: bool)
      modifies this`layout, this`troubles, this`layouts
      ensures ok ==> layout == l
      ensures troubles == old(troubles) + if ok then 0 else 1
      ensures layouts == old(layouts) + [(l, ok)]
    {
      var a := ApplyLayout(l);
      return a == Returned(true);
    }

    /** A conditional mutation of the generation `expected`. */
    method Mutate(change: Change, expected: Generation) returns (a: Answer<Mutation>)
      modifies this`current, this`troubles, this`answers
      ensures troubles == old(troubles) + if Done(a, change) then 0 else 1
      ensures answers == old(answers) + if a.Returned? then [a.value.result] else []
      ensures a.Returned? && a.value.result.Ok? && a.value.generation != 0 ==>
        var now := contents(a.value.generation);
        current == a.value.generation && now == Changed(contents(expected), change)
        && (a.value.promoted.Some? ==> a.value.promoted == Promoted(now, change))
    {
      a := *;
      current := *;
      if a.Returned? && a.value.result.Ok? && a.value.generation != 0 {
        current := a.value.generation;
        var now := contents(current);
        if now != Changed(contents(expected), change)
           || (a.value.promoted.Some? && a.value.promoted != Promoted(now, change)) {
          a := Threw;
        }
      }
      troubles := troubles + if Done(a, change) then 0 else 1;
      answers := answers + if a.Returned? then [a.value.result] else [];
    }

    /** The consumer of a verified generation: it takes over what the store holds. The store
        may decline before, or fail after; it never says success when the consumer refused. */
    method Adopt(g: Generation, required: Option<Kind>) returns (a: Answer<Saved>)
      requires Fitting()
      modifies this`generation, this`activeKind, this`activeProfile, this`troubles, this`verdicts
      ensures Fitting()
      ensures troubles >= old(troubles) && (a == Returned(Ok) ==> troubles == old(troubles))
      ensures verdicts == old(verdicts) + [a]
      ensures troubles == old(troubles) && Consumable(contents(g)) && g != 0
              && (required.Some? ==> contents(g).kind == required.value) ==>
        a == Returned(Ok)
      ensures a == Returned(Ok) ==> Adopted(g) && (required.Some? ==> activeKind == required)
      ensures Adopted(g)
              || (generation == old(generation) && activeKind == old(activeKind) && activeProfile == old(activeProfile))
    {
      var accepted := Granted();
      a := Ask((s: Saved) => s.Ok?);
      var state := contents(g);
      if !accepted {
        a := if a == Returned(Ok) then Threw else a;
      } else if g == 0 || !Consumable(state) || (required.Some? && state.kind != required.value) {
        a := if a == Returned(Ok) then Returned(Invalid) else a;
      } else {
        generation, activeKind, activeProfile := Some(g), Some(state.kind), state.Active();
      }
      verdicts := verdicts + [a];
    }

    predicate Adopted(g: Generation)
      reads this
    {
      generation == Some(g) && activeKind == Some(contents(g).kind) && activeProfile == contents(g).Active()
      && activeProfile.Some?
    }

    /** The checks of every consumer. */
    predicate Consumable(state: Stored) {
      state.Active().Some? && state.Active().value.kind == state.kind && valid(state.Active().value)
    }

    // -------------------------------------------------------------------------------------
    // Activation

    twostate predicate Untouched()
      reads this
    {
      gateClosed == old(gateClosed) && published == old(published) && activeKind == old(activeKind)
      && activeProfile == old(activeProfile) && generation == old(generation)
      && initialized == old(initialized) && layout == old(layout) && current == old(current)
    }

    /** The gate is open for the profile the store holds, with its layout in effect. */
    predicate InEffect(kind: Kind)
      reads this
    {
      !gateClosed && published.Some? && published.value.kind == kind && activeKind == Some(kind)
      && generation.Some? && contents(generation.value).kind == kind && contents(generation.value).Active() == published
      && layout == published.value.layout
    }

    predicate Reopened(before: Before, was: Stored)
      reads this
    {
      !gateClosed && published == Some(before.profile) && activeKind == Some(before.kind) && layout == before.layout
      && generation == Some(current) && contents(current) == was
    }

    /** The gate is open for the profile, the layout and the kind there were before, and the
        store holds again all that it held. */
    twostate predicate PutBack()
      reads this
    {
      old(generation).Some? && !gateClosed && published == old(activeProfile) && activeKind == old(activeKind)
      && layout == old(layout) && generation == Some(current) && contents(current) == old(contents(generation.value))
    }

    /** The kind is there with a valid profile of that kind. */
    predicate Selectable(s: Stored, kind: Kind) {
      kind in s.profiles && s.profiles[kind].kind == kind && valid(s.profiles[kind])
    }

    /** What the parts of an operation have in common: success means that nothing went wrong,
        an exception that something did, and an unknown outcome that everything is closed. */
    twostate predicate Accounted(new a: Answer<Result>)
      reads this
    {
      && troubles >= old(troubles) && deaf >= old(deaf) && |layouts| >= |old(layouts)|
      && old(answers) <= answers && old(verdicts) <= verdicts
      && (a.Threw? ==> troubles > old(troubles))
      && (a == Returned(Success) ==> troubles == old(troubles))
      && (a.Returned? ==> Concluded(a.value))
      && (a == Returned(Indeterminate) ==> gateClosed && !initialized)
    }

    /** What the operations have in common: an exception means that an observer has thrown at the
        very end, and what hinders an operation is told. */
    twostate predicate Ended(busy: Answer<bool>, external: Answer<bool>, new a: Answer<Result>)
      reads this
    {
      && (a.Threw? ==> deaf > old(deaf))
      && (a == Returned(Indeterminate) ==> gateClosed && !initialized)
      && (a == Returned(Busy) ==> busy == Returned(true) && Untouched())
      && (a == Returned(ExternalConfig) ==> busy == Returned(false) && external == Returned(true) && Untouched())
      && (a == Returned(Success) ==> busy == external == Returned(false) && troubles == old(troubles))
      && (a == Returned(PersistenceError) ==> layout == old(layout) && |answers| > |old(answers)|)
    }

    /** What every operation answers before it looks at anything. */
    twostate predicate Guarded(onThread: bool, locked: bool, new a: Answer<Result>)
      reads this
    {
      && (!onThread ==> a == Returned(WrongThread) && gateClosed)
      && (onThread && !locked ==> a == Returned(ConcurrentModification) && Untouched())
      && (onThread && locked && old(inProgress) ==> a == Returned(Reentrant) && Untouched())
      && (a == Returned(WrongThread) ==> !onThread)
      && (a == Returned(Reentrant) ==> onThread && locked && old(inProgress))
    }

    method Activate(kind: Kind, manual: bool, onThread: bool, locked: bool, busy: Answer<bool>, external: Answer<bool>)
        returns (a: Answer<Result>)
      requires Valid()
      modifies this
      ensures Valid() && inProgress == old(inProgress)
      ensures Guarded(onThread, locked, a)
      ensures onThread && locked && !old(inProgress) && !manual ==> a == Returned(NeedsConsent) && Untouched()
      ensures onThread && locked && !old(inProgress) && manual && !old(initialized) ==>
        a == Returned(InvalidProfile) && Untouched()
      ensures a == Returned(Unchanged) ==> Untouched() && old(initialized) && activeKind == Some(kind)
      ensures Ended(busy, external, a)
      ensures onThread && locked && manual && old(!inProgress && initialized) && troubles == old(troubles) ==>
        && Hindered(busy, external, a)
        && (busy == external == Returned(false) ==>
              if old(activeKind) == Some(kind) then a == Returned(Unchanged)
              else old(Selectable(contents(generation.value), kind)) ==> a == Returned(Success))
      ensures a == Returned(Success) ==> |verdicts| == |old(verdicts)| + 4
      ensures a == Returned(Success) ==>
        old(generation).Some? && generation.Some?
        && contents(generation.value) == Stored(kind, old(contents(generation.value)).profiles)
      ensures Untouched() || gateClosed || InEffect(kind) || PutBack()
      ensures a == Returned(Success) ==> InEffect(kind)
    {
      var refused := Enter(onThread, locked);
      if refused.Some? {
        return Returned(refused.value);
      }
      if !manual {
        return Returned(NeedsConsent);
      }
      a := ActivateAlone(kind, busy, external);
    }

    /** `activate` once nothing else is in progress. */
    method ActivateAlone(kind: Kind, busy: Answer<bool>, external: Answer<bool>) returns (a: Answer<Result>)
      requires Valid() && !inProgress
      modifies this
      ensures Valid() && inProgress == old(inProgress)
      ensures a.Returned? ==> !a.value.WrongThread? && !a.value.Reentrant?
      ensures !old(initialized) ==> a == Returned(InvalidProfile) && Untouched()
      ensures a == Returned(Unchanged) ==> Untouched() && old(initialized) && activeKind == Some(kind)
      ensures Ended(busy, external, a)
      ensures old(initialized) && troubles == old(troubles) ==>
        && Hindered(busy, external, a)
        && (busy == external == Returned(false) ==>
              if old(activeKind) == Some(kind) then a == Returned(Unchanged)
              else old(Selectable(contents(generation.value), kind)) ==> a == Returned(Success))
      ensures a == Returned(Success) ==> |verdicts| == |old(verdicts)| + 4
      ensures a == Returned(Success) ==>
        old(generation).Some? && generation.Some?
        && contents(generation.value) == Stored(kind, old(contents(generation.value)).profiles)
      ensures Untouched() || gateClosed || InEffect(kind) || PutBack()
      ensures a == Returned(Success) ==> InEffect(kind)
    {
      inProgress := true;
      a := ActivateManually(kind, busy, external);
      if a.Threw? {
        a := Handle();
      }
      inProgress := false;
    }

    /** The tests every operation begins with; only a call from another thread closes the gate. */
    method Enter(onThread: bool, locked: bool) returns (refused: Option<Result>)
      requires Valid()
      modifies this`gateClosed, this`published
      ensures Valid() && (onThread ==> Untouched())
      ensures !onThread ==> refused == Some(WrongThread) && gateClosed
      ensures onThread && !locked ==> refused == Some(ConcurrentModification)
      ensures onThread && locked ==> refused == if inProgress then Some(Reentrant) else None
    {
      if !onThread {
        CloseGate();
        return Some(WrongThread);
      }
      if !locked {
        return Some(ConcurrentModification);
      }
      return if inProgress then Some(Reentrant) else None;
    }

    /** The last handler of every operation: whatever was thrown, everything is closed. */
    method Handle() returns (a: Answer<Result>)
      modifies this`gateClosed, this`published, this`initialized, this`activeKind, this`activeProfile,
               this`generation, this`troubles, this`deaf
      ensures Valid() && gateClosed && !initialized && troubles >= old(troubles)
      ensures a == Threw || a == Returned(Indeterminate)
      ensures deaf == old(deaf) + if a.Threw? then 1 else 0
    {
      var closed := FailClosed();
      return if closed.Threw? then Threw else Returned(Indeterminate);
    }

    /** The guarded part of `activate`; `Threw` goes to its last handler. */
    method ActivateManually(kind: Kind, busy: Answer<bool>, external: Answer<bool>) returns (a: Answer<Result>)
      requires Valid() && inProgress
      modifies this
      ensures troubles >= old(troubles) && deaf >= old(deaf)
      ensures a.Threw? ==> troubles > old(troubles) || Hindrance(busy, external).Threw?
      ensures a.Returned? ==> !a.value.WrongThread? && !a.value.Reentrant? && Ended(busy, external, a)
      ensures !old(initialized) ==> a == Returned(InvalidProfile) && Untouched()
      ensures a == Returned(Unchanged) ==> Untouched() && initialized && activeKind == Some(kind)
      ensures old(initialized) && troubles == old(troubles) ==>
        && Hindered(busy, external, a)
        && (busy == external == Returned(false) ==>
              if old(activeKind) == Some(kind) then a == Returned(Unchanged)
              else old(Selectable(contents(generation.value), kind)) ==> a == Returned(Success))
      ensures a == Returned(Success) ==> |verdicts| == |old(verdicts)| + 4
      ensures a == Returned(Success) ==>
        old(generation).Some? && generation.Some?
        && contents(generation.value) == Stored(kind, old(contents(generation.value)).profiles)
      ensures a.Returned? ==> Valid() && (Untouched() || gateClosed || InEffect(kind) || PutBack())
      ensures a == Returned(Success) ==> InEffect(kind)
      ensures inProgress == old(inProgress)
    {
      if !initialized {
        return Returned(InvalidProfile);
      }
      var hint: Option<Profile> :- Ask((p: Option<Profile>) => p.Some? && p.value.kind == kind && valid(p.value));
      if hint.None? || hint.value.kind != kind || !valid(hint.value) {
        return Returned(InvalidProfile);
      }
      a := ActivateHinted(kind, busy, external);
    }

    /** `activate` once the store has said that it has the kind. */
    method ActivateHinted(kind: Kind, busy: Answer<bool>, external: Answer<bool>) returns (a: Answer<Result>)
      requires Valid() && initialized
      modifies this
      ensures troubles >= old(troubles) && deaf >= old(deaf)
      ensures a.Threw? ==> troubles > old(troubles) || Hindrance(busy, external).Threw?
      ensures a.Returned? ==> !a.value.WrongThread? && !a.value.Reentrant? && Ended(busy, external, a)
      ensures a == Returned(Unchanged) ==> Untouched() && activeKind == Some(kind)
      ensures troubles == old(troubles) ==>
        && Hindered(busy, external, a)
        && (busy == external == Returned(false) ==>
              if old(activeKind) == Some(kind) then a == Returned(Unchanged)
              else old(Selectable(contents(generation.value), kind)) ==> a == Returned(Success))
      ensures a == Returned(Success) ==> |verdicts| == |old(verdicts)| + 4
      ensures a == Returned(Success) ==>
        generation.Some? && contents(generation.value) == Stored(kind, old(contents(generation.value)).profiles)
      ensures a.Returned? ==> Valid() && (Untouched() || gateClosed || InEffect(kind) || PutBack())
      ensures a == Returned(Success) ==> InEffect(kind)
      ensures inProgress == old(inProgress)
    {
      var hindrance :- Hindrance(busy, external);
      if hindrance.Some? {
        return Returned(hindrance.value);
      }
      if activeKind == Some(kind) {
        return Returned(Unchanged);
      }
      a := ActivateClosed(kind);
    }

    /** `activate` from closing the gate on. */
    method ActivateClosed(kind: Kind) returns (a: Answer<Result>)
      requires Valid() && initialized
      modifies this
      ensures Accounted(a)
      ensures troubles == old(troubles) && old(Selectable(contents(generation.value), kind)) ==> a == Returned(Success)
      ensures a.Returned? && |answers| > |old(answers)| && !answers[|old(answers)|].Ok? ==>
        Told(answers[|old(answers)|], a.value)
      ensures a == Returned(InvalidProfile) ==> |answers| > |old(answers)| && answers[|old(answers)|].Invalid?
      ensures a == Returned(PersistenceError) ==>
        layout == old(layout) && |answers| > |old(answers)|
        && (answers[|old(answers)|].SettingsError? || |layouts| > |old(layouts)|)
      ensures a == Returned(Success) ==> |verdicts| == |old(verdicts)| + 4
      ensures a == Returned(Success) ==>
        generation.Some? && contents(generation.value) == Stored(kind, old(contents(generation.value)).profiles)
      ensures a.Returned? ==> Valid() && (gateClosed || InEffect(kind) || PutBack())
      ensures a == Returned(Success) ==> InEffect(kind)
      ensures inProgress == old(inProgress)
    {
      CloseGate();
      var previousLayout :- SnapshotLayout();
      var before := Before(SetActive(activeKind.value), true, activeKind.value, activeProfile.value, previousLayout);
      ghost var was := contents(generation.value);
      var mutation :- Mutate(SetActive(kind), generation.value);
      if !mutation.result.Ok? {
        var closed :- FailClosed();
        return Returned(Report(mutation.result));
      }
      if mutation.promoted.None? || mutation.promoted.value.kind != kind || !valid(mutation.promoted.value)
         || mutation.generation == 0 {
        var closed :- FailClosed();
        return Returned(Indeterminate);
      }
      a := ActivateStored(mutation.promoted.value, mutation.generation, before, was);
    }

    /** `activate` once the store has the target as active. */
    method ActivateStored(promoted: Profile, g: Generation, before: Before, ghost was: Stored)
      returns (a: Answer<Result>)
      requires Valid() && initialized && gateClosed && g != 0 && !before.undo.ReplaceAll?
      requires Undoes(before, g) && Changed(contents(g), before.undo) == was
      requires contents(g).kind == promoted.kind && contents(g).Active() == Some(promoted) && valid(promoted)
      modifies this
      ensures inProgress == old(inProgress)
      ensures a.Returned? ==> Valid()
      ensures a.Returned? ==> gateClosed || InEffect(promoted.kind) || Reopened(before, was)
      ensures a == Returned(Success) ==> InEffect(promoted.kind) && generation == Some(g)
      ensures a == Returned(Success) ==> |verdicts| == |old(verdicts)| + 4
      ensures Accounted(a) && a != Returned(InvalidProfile) && Undone(before, a) && |layouts| > |old(layouts)|
      ensures troubles == old(troubles) ==> a == Returned(Success)
    {
      var applied := TryLayout(promoted.layout);
      if !applied {
        var back :- Retreat(before, g);
        if !back {
          return Returned(Indeterminate);
        }
        return Returned(PersistenceError);
      }
      a := ActivateApplied(promoted.kind, g, before, was);
    }

    /** A failure that is reported as such has been undone: the layout is back, and the last
        mutation of the store succeeded. */
    twostate predicate Undone(before: Before, new a: Answer<Result>)
      reads this
    {
      a == Returned(PersistenceError) ==>
        layout == before.layout && |answers| > |old(answers)| && answers[|answers| - 1].Ok?
    }

    /** What undoing leads to is what there was before. */
    predicate Undoes(before: Before, g: Generation) {
      var back := Changed(contents(g), before.undo);
      back.kind == before.kind && back.Active() == Some(before.profile)
      && valid(before.profile) && before.profile.kind == before.kind
    }

    /** The kind and profile before go back into the store. */
    method Compensate(before: Before, g: Generation) returns (ok: bool)
      requires Undoes(before, g)
      modifies this`current, this`generation, this`activeKind, this`activeProfile, this`troubles, this`answers
      ensures troubles >= old(troubles) && deaf >= old(deaf) && old(answers) <= answers
      ensures ok ==> |answers| == |old(answers)| + 1 && answers[|old(answers)|].Ok?
      ensures !ok ==> troubles > old(troubles) || (before.promotes && before.undo.ReplaceAll?)
      ensures ok ==> generation == Some(current) && contents(current) == Changed(contents(g), before.undo)
      ensures ok ==> activeKind == Some(before.kind) && activeProfile == Some(before.profile)
      ensures !ok ==>
                generation == old(generation) && activeKind == old(activeKind) && activeProfile == old(activeProfile)
    {
      var a := Mutate(before.undo, g);
      if a.Threw? || !a.value.result.Ok? || a.value.generation == 0 || (before.promotes && a.value.promoted.None?) {
        return false;
      }
      generation, activeKind, activeProfile := Some(a.value.generation), Some(before.kind), Some(before.profile);
      return true;
    }

    /** Layout, kind and profile go back to what they were, or everything is closed. */
    method Retreat(before: Before, g: Generation) returns (back: Answer<bool>)
      requires Undoes(before, g) && (before.promotes ==> !before.undo.ReplaceAll?)
      modifies this`layout, this`current, this`gateClosed, this`published, this`initialized, this`activeKind,
               this`activeProfile, this`generation, this`troubles, this`answers, this`layouts, this`deaf
      ensures troubles >= old(troubles) && deaf >= old(deaf) && old(answers) <= answers
      ensures back != Returned(true) ==> troubles > old(troubles) && Valid() && gateClosed && !initialized
      ensures back == Returned(true) ==>
        && |answers| > |old(answers)| && answers[|answers| - 1].Ok?
        && layout == before.layout && generation == Some(current)
        && contents(current) == Changed(contents(g), before.undo)
        && activeKind == Some(before.kind) && activeProfile == Some(before.profile)
        && gateClosed == old(gateClosed) && published == old(published) && initialized == old(initialized)
      ensures |layouts| >= |old(layouts)|
    {
      var restored := TryLayout(before.layout);
      var compensated := Compensate(before, g);
      if restored && compensated {
        return Returned(true);
      }
      var closed :- FailClosed();
      return Returned(false);
    }

    /** Undoes an activation with the gate closed; whether that worked is in the answer only. */
    method Undo(failed: Answer<Saved>, otherwise: Result, before: Before, g: Generation) returns (a: Answer<Result>)
      requires Undoes(before, g) && !otherwise.Success?
      requires failed.Threw? || !failed.value.Ok?
      requires before.promotes ==> !before.undo.ReplaceAll?
      modifies this`layout, this`current, this`gateClosed, this`published, this`initialized, this`activeKind,
               this`activeProfile, this`generation, this`troubles, this`answers, this`layouts, this`deaf
      ensures Valid() && gateClosed && a != Returned(Success)
      ensures troubles >= old(troubles) && deaf >= old(deaf) && old(answers) <= answers
      ensures a.Threw? ==> troubles > old(troubles)
      ensures a.Returned? && !a.value.Indeterminate? ==> layout == before.layout
      ensures a.Returned? && !a.value.Indeterminate? && !a.value.ConcurrentModification? ==> Undone(before, a)
      ensures a == Returned(Indeterminate) && !otherwise.Indeterminate? ==> troubles > old(troubles)
      ensures a == Returned(Indeterminate) ==> !initialized
      ensures a.Returned? && (troubles == old(troubles) || !a.value.Indeterminate?) ==>
        a.value == if failed.Threw? then PersistenceError
                   else if failed.value.Concurrent? then ConcurrentModification else otherwise
      ensures |layouts| >= |old(layouts)|
    {
      var closed :- FailClosed();
      var restored := TryLayout(before.layout);
      var compensated := Compensate(before, g);
      if !restored || (failed != Returned(Concurrent) && !compensated) {
        return Returned(Indeterminate);
      }
      return Returned(if failed.Threw? then PersistenceError
        else if failed.value.Concurrent? then ConcurrentModification else otherwise);
    }

    /** `activate` once the layout of the target is applied. */
    method ActivateApplied(kind: Kind, g: Generation, before: Before, ghost was: Stored) returns (a: Answer<Result>)
      requires g != 0 && !before.undo.ReplaceAll?
      ensures a == Returned(Success) ==> |verdicts| == |old(verdicts)| + 4
      ensures a != Returned(InvalidProfile) && Undone(before, a)
      ensures var n := |old(verdicts)|;
        n < |verdicts| <= n + 2 && verdicts[|verdicts| - 1].Returned? && a == Returned(PersistenceError) ==>
          verdicts[|verdicts| - 1].value in {Ok, Concurrent}
      requires Fitting() && gateClosed && published.None? && initialized
      requires Undoes(before, g) && Changed(contents(g), before.undo) == was
      requires contents(g).kind == kind && contents(g).Active().Some? && layout == contents(g).Active().value.layout
      modifies this
      ensures inProgress == old(inProgress)
      ensures a.Returned? ==> Valid()
      ensures a.Returned? ==> gateClosed || InEffect(kind) || Reopened(before, was)
      ensures a == Returned(Success) ==> InEffect(kind) && generation == Some(g)
      ensures Accounted(a)
      ensures troubles == old(troubles) && Consumable(contents(g)) ==> a == Returned(Success)
    {
      var adopted := Adopt(g, Some(kind));
      if adopted == Returned(Ok) {
        adopted := Verify();
      }
      if adopted != Returned(Ok) {
        a := Undo(adopted, Indeterminate, before, g);
        return;
      }
      a := ActivateObserved(kind, g, before, was);
    }

    /** Observers are told while the gate is closed; one that throws has everything undone. */
    method ActivateObserved(kind: Kind, g: Generation, before: Before, ghost was: Stored) returns (a: Answer<Result>)
      ensures a == Returned(Success) ==> |verdicts| == |old(verdicts)| + 2
      ensures a != Returned(InvalidProfile) && Undone(before, a)
      requires Fitting() && gateClosed && published.None? && initialized && g != 0 && !before.undo.ReplaceAll?
      requires Undoes(before, g) && Changed(contents(g), before.undo) == was && Adopted(g)
      requires contents(g).kind == kind && layout == contents(g).Active().value.layout
      modifies this
      ensures inProgress == old(inProgress)
      ensures a.Returned? ==> Valid()
      ensures a.Returned? ==> gateClosed || InEffect(kind) || Reopened(before, was)
      ensures a == Returned(Success) ==> InEffect(kind) && generation == Some(g)
      ensures Accounted(a)
      ensures troubles == old(troubles) ==> a == Returned(Success)
    {
      var observer: Answer<()> := Ask(_ => true);
      if observer.Threw? {
        a := Reopen(before, g, was);
        return;
      }
      a := ActivateVerified(kind, g, before);
    }

    /** An activation is undone and the gate opened again for what there was before. */
    method Reopen(before: Before, g: Generation, ghost was: Stored) returns (a: Answer<Result>)
      requires gateClosed && published.None? && initialized && !before.undo.ReplaceAll?
      requires Undoes(before, g) && Changed(contents(g), before.undo) == was
      modifies this`layout, this`current, this`gateClosed, this`published, this`initialized, this`activeKind,
               this`activeProfile, this`generation, this`troubles, this`answers, this`layouts, this`deaf
      ensures troubles >= old(troubles) && deaf >= old(deaf) && old(answers) <= answers
      ensures a.Threw? || a == Returned(Indeterminate) ==> troubles > old(troubles)
      ensures a.Returned? ==> Valid() && (a.value.PersistenceError? || a.value.Indeterminate?)
      ensures a == Returned(PersistenceError) ==> Reopened(before, was)
      ensures a == Returned(Indeterminate) ==> gateClosed && !initialized
      ensures Undone(before, a)
      ensures |layouts| >= |old(layouts)|
    {
      CloseGate();
      var back :- Retreat(before, g);
      if !back {
        return Returned(Indeterminate);
      }
      PublishProfile();
      return Returned(PersistenceError);
    }

    /** The second reading, in which the gate is opened. */
    method ActivateVerified(kind: Kind, g: Generation, before: Before) returns (a: Answer<Result>)
      ensures a == Returned(Success) ==> |verdicts| == |old(verdicts)| + 2
      ensures a != Returned(InvalidProfile) && Undone(before, a)
      ensures a == Returned(Indeterminate) ==> troubles >= old(troubles) + 2
      requires Fitting() && gateClosed && published.None? && initialized && g != 0 && !before.undo.ReplaceAll?
      requires Undoes(before, g) && Adopted(g)
      requires contents(g).kind == kind && layout == contents(g).Active().value.layout
      modifies this
      ensures inProgress == old(inProgress)
      ensures a.Returned? ==> Valid() && (gateClosed || InEffect(kind))
      ensures a == Returned(Success) ==> InEffect(kind) && generation == Some(g)
      ensures Accounted(a)
      ensures troubles == old(troubles) ==> a == Returned(Success)
    {
      var adopted := Adopt(g, Some(kind));
      var sealed := Granted();
      if adopted == Returned(Ok) && sealed {
        PublishProfile();
        adopted := Verify();
      } else if adopted == Returned(Ok) {
        adopted := Returned(Invalid);
      }
      if adopted != Returned(Ok) {
        a := Undo(adopted, PersistenceError, before, g);
        return;
      }
      return Returned(Success);
    }

    // -------------------------------------------------------------------------------------
    // Capturing and replacing profiles, and starting

    predicate Capturable(captured: Option<Profile>, kind: Kind) {
      captured.Some? && captured.value.kind == kind && kind in kinds && valid(captured.value)
    }

    /** `capture`; `captured` is the profile put together from the layout and the registry. */
    method Capture(kind: Kind, captured: Answer<Option<Profile>>, onThread: bool, locked: bool, busy: Answer<bool>,
                   external: Answer<bool>)
        returns (a: Answer<Result>)
      requires Valid()
      modifies this
      ensures Valid() && inProgress == old(inProgress)
      ensures Guarded(onThread, locked, a)
      ensures onThread && locked && old(!inProgress && !initialized) ==> a == Returned(InvalidProfile) && Untouched()
      ensures Ended(busy, external, a)
      ensures onThread && locked && old(!inProgress && initialized) && captured.Returned?
              && troubles == old(troubles) ==>
        && Hindered(busy, external, a)
        && (busy == external == Returned(false) ==>
              if Capturable(captured.value, kind) then a == Returned(Success)
              else a == Returned(InvalidProfile) && Untouched())
      ensures a == Returned(Success) ==> |verdicts| == |old(verdicts)| + 4
      ensures Untouched() || gateClosed || (old(!gateClosed) && generation.Some? && Adopted(generation.value))
      ensures a == Returned(Success) ==> generation.Some? && Adopted(generation.value) && gateClosed == old(gateClosed)
      ensures a == Returned(Success) ==>
        old(generation).Some? && captured.Returned? && captured.value.Some? && captured.value.value.kind == kind
        && activeKind == old(activeKind)
        && contents(generation.value) == With(old(contents(generation.value)), captured.value.value)
    {
      var refused := Enter(onThread, locked);
      if refused.Some? {
        return Returned(refused.value);
      }
      a := CaptureAlone(kind, captured, busy, external);
    }

    /** `capture` once nothing else is in progress. */
    method CaptureAlone(kind: Kind, captured: Answer<Option<Profile>>, busy: Answer<bool>, external: Answer<bool>)
        returns (a: Answer<Result>)
      requires Valid() && !inProgress
      modifies this
      ensures Valid() && inProgress == old(inProgress)
      ensures a.Returned? ==> !a.value.WrongThread? && !a.value.Reentrant?
      ensures !old(initialized) ==> a == Returned(InvalidProfile) && Untouched()
      ensures Ended(busy, external, a)
      ensures old(initialized) && captured.Returned? && troubles == old(troubles) ==>
        && Hindered(busy, external, a)
        && (busy == external == Returned(false) ==>
              if Capturable(captured.value, kind) then a == Returned(Success)
              else a == Returned(InvalidProfile) && Untouched())
      ensures a == Returned(Success) ==> |verdicts| == |old(verdicts)| + 4
      ensures Untouched() || gateClosed || (old(!gateClosed) && generation.Some? && Adopted(generation.value))
      ensures a == Returned(Success) ==> generation.Some? && Adopted(generation.value) && gateClosed == old(gateClosed)
      ensures a == Returned(Success) ==>
        old(generation).Some? && captured.Returned? && captured.value.Some? && captured.value.value.kind == kind
        && activeKind == old(activeKind)
        && contents(generation.value) == With(old(contents(generation.value)), captured.value.value)
    {
      inProgress := true;
      a := CaptureGuarded(kind, captured, busy, external);
      if a.Threw? {
        a := Handle();
      }
      inProgress := false;
    }

    method CaptureGuarded(kind: Kind, capturing: Answer<Option<Profile>>, busy: Answer<bool>, external: Answer<bool>)
        returns (a: Answer<Result>)
      requires Valid() && inProgress
      modifies this
      ensures a.Threw? ==> troubles > old(troubles) || capturing.Threw? || Hindrance(busy, external).Threw?
      ensures troubles >= old(troubles) && deaf >= old(deaf)
      ensures a.Returned? ==> !a.value.WrongThread? && !a.value.Reentrant? && Ended(busy, external, a)
      ensures !old(initialized) ==> a == Returned(InvalidProfile) && Untouched()
      ensures old(initialized) && capturing.Returned? && troubles == old(troubles) ==>
        && Hindered(busy, external, a)
        && (busy == external == Returned(false) ==>
              if Capturable(capturing.value, kind) then a == Returned(Success)
              else a == Returned(InvalidProfile) && Untouched())
      ensures a == Returned(Success) ==> |verdicts| == |old(verdicts)| + 4
      ensures inProgress == old(inProgress)
      ensures a.Returned? ==> Valid()
      ensures a.Returned? ==>
                Untouched() || gateClosed || (old(!gateClosed) && generation.Some? && Adopted(generation.value))
      ensures a == Returned(Success) ==> generation.Some? && Adopted(generation.value) && gateClosed == old(gateClosed)
      ensures a == Returned(Success) ==>
        old(generation).Some? && capturing.Returned? && capturing.value.Some? && capturing.value.value.kind == kind
        && activeKind == old(activeKind)
        && contents(generation.value) == With(old(contents(generation.value)), capturing.value.value)
    {
      if !initialized {
        return Returned(InvalidProfile);
      }
      var hindrance :- Hindrance(busy, external);
      if hindrance.Some? {
        return Returned(hindrance.value);
      }
      var captured :- capturing;
      if captured.None? || captured.value.kind != kind || kind !in kinds || !valid(captured.value) {
        return Returned(InvalidProfile);
      }
      a := CaptureReady(kind, captured.value);
    }

    /** `capture` of a valid profile when nothing hinders it; the gate is closed meanwhile if it
        is the active one. */
    method CaptureReady(kind: Kind, captured: Profile) returns (a: Answer<Result>)
      requires Valid() && initialized && valid(captured) && captured.kind == kind
      modifies this
      ensures inProgress == old(inProgress)
      ensures Accounted(a) && layout == old(layout)
      ensures a == Returned(PersistenceError) ==> |answers| > |old(answers)|
      ensures a == Returned(Success) ==> |verdicts| == |old(verdicts)| + 4
      ensures troubles == old(troubles) ==> a == Returned(Success)
      ensures a.Returned? ==> Valid()
      ensures a.Returned? ==> gateClosed || (old(!gateClosed) && generation.Some? && Adopted(generation.value))
      ensures a == Returned(Success) ==> generation.Some? && Adopted(generation.value) && gateClosed == old(gateClosed)
      ensures a == Returned(Success) ==>
        activeKind == old(activeKind)
        && contents(generation.value) == With(old(contents(generation.value)), captured)
    {
      var wasOpen := !gateClosed;
      var previous: Option<Profile> :- Ask(_ => true);
      if activeKind == Some(kind) {
        CloseGate();
      }
      a := CaptureSave(captured, wasOpen, previous);
    }

    /** Saves the captured profile and takes over what the store then holds. */
    method CaptureSave(captured: Profile, wasOpen: bool, previous: Option<Profile>) returns (a: Answer<Result>)
      requires Valid() && initialized && valid(captured)
      requires activeKind == Some(captured.kind) ==> gateClosed
      modifies this
      ensures inProgress == old(inProgress)
      ensures Accounted(a) && layout == old(layout)
      ensures a == Returned(PersistenceError) ==>
        |answers| > |old(answers)| && (answers[|old(answers)|].SettingsError? || |verdicts| > |old(verdicts)|)
      ensures a == Returned(Success) ==> |verdicts| == |old(verdicts)| + 4
      ensures troubles == old(troubles) ==> a == Returned(Success)
      ensures a.Returned? && |answers| > |old(answers)| && !answers[|old(answers)|].Ok? ==>
        Told(answers[|old(answers)|], a.value)
      ensures a.Returned? ==> Valid() && (gateClosed || (wasOpen && generation.Some? && Adopted(generation.value)))
      ensures a == Returned(Success) ==> generation.Some? && Adopted(generation.value) && gateClosed == !wasOpen
      ensures a == Returned(Success) ==>
        activeKind == old(activeKind)
        && contents(generation.value) == With(old(contents(generation.value)), captured)
    {
      var kind := captured.kind;
      var mutation :- Mutate(ReplaceProfile(captured), generation.value);
      if !mutation.result.Ok? {
        var closed :- FailClosed();
        return Returned(Report(mutation.result));
      }
      if mutation.promoted.None? || mutation.promoted.value.kind != kind || !valid(mutation.promoted.value)
         || mutation.generation == 0 {
        var closed :- FailClosed();
        return Returned(Indeterminate);
      }
      a := CaptureStored(mutation.generation, wasOpen, previous);
    }

    /** The first reading of a captured generation. */
    method CaptureStored(g: Generation, wasOpen: bool, previous: Option<Profile>) returns (a: Answer<Result>)
      requires Valid() && initialized && g != 0 && Consumable(contents(g))
      modifies this
      ensures inProgress == old(inProgress)
      ensures Accounted(a) && layout == old(layout)
      ensures a == Returned(Success) ==> |verdicts| == |old(verdicts)| + 4
      ensures troubles == old(troubles) ==> a == Returned(Success)
      ensures a.Returned? ==> Valid() && (gateClosed || (wasOpen && Adopted(g)))
      ensures a == Returned(Success) ==> Adopted(g) && gateClosed == !wasOpen
      ensures |verdicts| > |old(verdicts)|
    {
      var saved :- Adopt(g, None);
      if saved.Ok? {
        CloseGate();
        saved :- Verify();
      }
      if !saved.Ok? {
        var closed :- FailClosed();
        return Returned(Report(saved));
      }
      a := CapturePublish(g, wasOpen, previous);
    }

    /** The second reading of a captured generation, in which observers are told. */
    method CapturePublish(g: Generation, wasOpen: bool, previous: Option<Profile>) returns (a: Answer<Result>)
      requires Fitting() && gateClosed && published.None? && initialized && Adopted(g)
      modifies this
      ensures inProgress == old(inProgress)
      ensures a.Returned? ==> Valid() && (gateClosed || (wasOpen && Adopted(g)))
      ensures a == Returned(Success) ==> Adopted(g) && gateClosed == !wasOpen
      ensures g != 0 && Consumable(contents(g)) ==> Accounted(a) && layout == old(layout)
      ensures a == Returned(Success) ==> |verdicts| == |old(verdicts)| + 2
      ensures troubles == old(troubles) && Consumable(contents(g)) && g != 0 ==> a == Returned(Success)
    {
      var saved := TellCaptured(g, wasOpen);
      if saved.Threw? {
        a := UndoCapture(g, previous);
        return;
      }
      if !saved.value.Ok? {
        var closed :- FailClosed();
        return Returned(Report(saved.value));
      }
      return Returned(Success);
    }

    method TellCaptured(g: Generation, wasOpen: bool) returns (saved: Answer<Saved>)
      requires Fitting() && gateClosed && published.None? && initialized && Adopted(g)
      modifies this`generation, this`activeKind, this`activeProfile, this`troubles, this`gateClosed, this`published,
               this`verdicts
      ensures Fitting() && Adopted(g) && troubles >= old(troubles) && old(verdicts) <= verdicts
      ensures saved == Returned(Ok) ==>
        && gateClosed == !wasOpen && published == (if wasOpen then activeProfile else None)
        && troubles == old(troubles) && |verdicts| == |old(verdicts)| + 2
      ensures saved != Returned(Ok) && Consumable(contents(g)) && g != 0 ==> troubles > old(troubles)
    {
      saved := Adopt(g, None);
      var sealed := Granted();
      if saved != Returned(Ok) {
        return;
      }
      if !sealed {
        return Returned(Invalid);
      }
      var observer: Answer<()> := Ask(_ => true);
      if observer.Threw? {
        return Threw;
      }
      if wasOpen {
        PublishProfile();
      }
      saved := Verify();
    }

    /** The previous profile goes back into the store, if there was one. */
    method UndoCapture(g: Generation, previous: Option<Profile>) returns (a: Answer<Result>)
      modifies this`current, this`troubles, this`answers, this`gateClosed, this`published, this`initialized,
               this`activeKind, this`activeProfile, this`generation, this`deaf
      ensures Valid() && gateClosed && !initialized
      ensures troubles >= old(troubles) && deaf >= old(deaf) && old(answers) <= answers
      ensures a.Threw? ==> troubles > old(troubles)
      ensures a.Returned? ==> a.value.PersistenceError? || a.value.Indeterminate?
      ensures a == Returned(PersistenceError) ==>
        previous.Some? && |answers| == |old(answers)| + 1 && answers[|old(answers)|].Ok?
      ensures a == Returned(Indeterminate) ==> previous.None? || troubles > old(troubles)
    {
      var compensated := false;
      if previous.Some? {
        var rollback := Mutate(ReplaceProfile(previous.value), g);
        compensated := rollback.Returned? && rollback.value.result.Ok?;
      }
      var closed :- FailClosed();
      return Returned(if compensated then PersistenceError else Indeterminate);
    }

    method ReplaceAll(profiles: seq<Profile>, kind: Kind, onThread: bool, locked: bool, busy: Answer<bool>,
                      external: Answer<bool>)
        returns (a: Answer<Result>)
      requires Valid()
      modifies this
      ensures Valid() && inProgress == old(inProgress)
      ensures Guarded(onThread, locked, a)
      ensures onThread && locked && !old(inProgress)
              && (!old(initialized) || !ValidCollection(kinds, valid, profiles, kind)) ==>
        a == Returned(InvalidProfile) && Untouched()
      ensures Ended(busy, external, a)
      ensures onThread && locked && old(!inProgress && initialized) && ValidCollection(kinds, valid, profiles, kind)
              && troubles == old(troubles) ==>
        && Hindered(busy, external, a)
        && (busy == external == Returned(false) ==> a == Returned(Success))
      ensures a == Returned(Success) ==> |verdicts| == |old(verdicts)| + 2
      ensures Untouched() || gateClosed || (old(!gateClosed) && InEffect(kind))
      ensures a == Returned(Success) ==> gateClosed == old(gateClosed)
      ensures a == Returned(Success) ==>
        generation.Some? && contents(generation.value) == Stored(kind, AsMap(profiles))
        && activeProfile.Some? && activeProfile.value in profiles && layout == activeProfile.value.layout
    {
      var refused := Enter(onThread, locked);
      if refused.Some? {
        return Returned(refused.value);
      }
      a := ReplaceAlone(profiles, kind, busy, external);
    }

    /** `replaceAll` once nothing else is in progress. */
    method ReplaceAlone(profiles: seq<Profile>, kind: Kind, busy: Answer<bool>, external: Answer<bool>)
        returns (a: Answer<Result>)
      requires Valid() && !inProgress
      modifies this
      ensures Valid() && inProgress == old(inProgress)
      ensures a.Returned? ==> !a.value.WrongThread? && !a.value.Reentrant?
      ensures !old(initialized) || !ValidCollection(kinds, valid, profiles, kind) ==>
        a == Returned(InvalidProfile) && Untouched()
      ensures Ended(busy, external, a)
      ensures old(initialized) && ValidCollection(kinds, valid, profiles, kind) && troubles == old(troubles) ==>
        && Hindered(busy, external, a)
        && (busy == external == Returned(false) ==> a == Returned(Success))
      ensures a == Returned(Success) ==> |verdicts| == |old(verdicts)| + 2
      ensures Untouched() || gateClosed || (old(!gateClosed) && InEffect(kind))
      ensures a == Returned(Success) ==> gateClosed == old(gateClosed)
      ensures a == Returned(Success) ==>
        generation.Some? && contents(generation.value) == Stored(kind, AsMap(profiles))
        && activeProfile.Some? && activeProfile.value in profiles && layout == activeProfile.value.layout
    {
      inProgress := true;
      a := ReplaceGuarded(profiles, kind, busy, external);
      if a.Threw? {
        a := Handle();
      }
      inProgress := false;
    }

    method ReplaceGuarded(profiles: seq<Profile>, kind: Kind, busy: Answer<bool>, external: Answer<bool>)
        returns (a: Answer<Result>)
      requires Valid() && inProgress
      modifies this
      ensures troubles >= old(troubles) && deaf >= old(deaf)
      ensures a.Threw? ==> troubles > old(troubles) || Hindrance(busy, external).Threw?
      ensures a.Returned? ==> !a.value.WrongThread? && !a.value.Reentrant? && Ended(busy, external, a)
      ensures !old(initialized) || !ValidCollection(kinds, valid, profiles, kind) ==>
        a == Returned(InvalidProfile) && Untouched()
      ensures old(initialized) && ValidCollection(kinds, valid, profiles, kind) && troubles == old(troubles) ==>
        && Hindered(busy, external, a)
        && (busy == external == Returned(false) ==> a == Returned(Success))
      ensures a == Returned(Success) ==> |verdicts| == |old(verdicts)| + 2
      ensures inProgress == old(inProgress)
      ensures a.Returned? ==> Valid()
      ensures a.Returned? ==> Untouched() || gateClosed || (old(!gateClosed) && InEffect(kind))
      ensures a == Returned(Success) ==> gateClosed == old(gateClosed)
      ensures a == Returned(Success) ==>
        generation.Some? && contents(generation.value) == Stored(kind, AsMap(profiles))
        && activeProfile.Some? && activeProfile.value in profiles && layout == activeProfile.value.layout
    {
      if !initialized || !ValidCollection(kinds, valid, profiles, kind) {
        return Returned(InvalidProfile);
      }
      var hindrance :- Hindrance(busy, external);
      if hindrance.Some? {
        return Returned(hindrance.value);
      }
      a := ReplaceReady(profiles, kind);
    }

    /** `replaceAll` of a valid collection when nothing hinders it. */
    method ReplaceReady(profiles: seq<Profile>, kind: Kind) returns (a: Answer<Result>)
      requires Valid() && initialized && ValidCollection(kinds, valid, profiles, kind)
      modifies this
      ensures Accounted(a)
      ensures a == Returned(PersistenceError) ==> layout == old(layout) && |answers| > |old(answers)|
      ensures a == Returned(Success) ==> |verdicts| == |old(verdicts)| + 2
      ensures troubles == old(troubles) ==> a == Returned(Success)
      ensures inProgress == old(inProgress)
      ensures a.Returned? ==> Valid() && (gateClosed || (old(!gateClosed) && InEffect(kind)))
      ensures a == Returned(Success) ==> gateClosed == old(gateClosed)
      ensures a == Returned(Success) ==>
        generation.Some? && contents(generation.value) == Stored(kind, AsMap(profiles))
        && activeProfile.Some? && activeProfile.value in profiles && layout == activeProfile.value.layout
    {
      var before :- TakeStock(activeKind.value);
      if before.None? {
        var closed :- FailClosed();
        return Returned(Indeterminate);
      }
      Selected(profiles, kind);
      a := ReplaceClosed(Change.ReplaceAll(AsMap(profiles), kind), First(profiles, kind), before.value);
    }

    /** What there is before a replacement, if it is a valid collection. */
    method TakeStock(kind: Kind) returns (a: Answer<Option<Before>>)
      modifies this`troubles
      ensures troubles >= old(troubles) && (a.Returned? && a.value.Some? <==> troubles == old(troubles))
      ensures a.Returned? && a.value.Some? ==>
        var before := a.value.value;
        before.undo.ReplaceAll? && Undoes(before, 0) && !before.promotes && before.layout == layout
    {
      var profiles: seq<Profile> :- Ask((ps: seq<Profile>) => ValidCollection(kinds, valid, ps, kind));
      var previousLayout :- SnapshotLayout();
      if !ValidCollection(kinds, valid, profiles, kind) {
        return Returned(None);
      }
      return Returned(Some(Undoing(profiles, kind, previousLayout)));
    }

    lemma Selected(profiles: seq<Profile>, kind: Kind)
      requires ValidCollection(kinds, valid, profiles, kind)
      ensures exists i :: 0 <= i < |profiles| && profiles[i].kind == kind
      ensures var p := First(profiles, kind);
        valid(p) && p in profiles && p.kind == kind && kind in AsMap(profiles) && AsMap(profiles)[kind] == p
    {
      AllValid(kinds, valid, profiles, kind);
      AsMapFirst(profiles, kind);
    }

    /** How the store gets a valid collection back. */
    function Undoing(profiles: seq<Profile>, kind: Kind, layout: Layout): (before: Before)
      requires ValidCollection(kinds, valid, profiles, kind)
      ensures before.undo.ReplaceAll? && Undoes(before, 0) && !before.promotes && before.layout == layout
      ensures before.undo == Change.ReplaceAll(AsMap(profiles), kind)
    {
      AllValid(kinds, valid, profiles, kind);
      AsMapFirst(profiles, kind);
      Before(Change.ReplaceAll(AsMap(profiles), kind), false, kind, First(profiles, kind), layout)
    }

    /** `replaceAll` from closing the gate on. */
    method ReplaceClosed(change: Change, selected: Profile, before: Before) returns (a: Answer<Result>)
      requires Valid() && initialized && change.ReplaceAll? && before.undo.ReplaceAll?
      requires change.active in change.profiles && change.profiles[change.active] == selected && Undoes(before, 0)
      requires valid(selected) && selected.kind == change.active && !before.promotes && before.layout == layout
      modifies this
      ensures inProgress == old(inProgress)
      ensures Accounted(a)
      ensures a == Returned(PersistenceError) ==> layout == old(layout) && |answers| > |old(answers)|
      ensures a == Returned(InvalidProfile) ==> |answers| > |old(answers)| && answers[|old(answers)|].Invalid?
      ensures a == Returned(Success) ==> |verdicts| == |old(verdicts)| + 2
      ensures troubles == old(troubles) ==> a == Returned(Success)
      ensures a.Returned? && |answers| > |old(answers)| && !answers[|old(answers)|].Ok? ==>
        Told(answers[|old(answers)|], a.value) || (a == Returned(Indeterminate) && |layouts| == |old(layouts)|)
      ensures a.Returned? ==> Valid() && (gateClosed || (old(!gateClosed) && InEffect(change.active)))
      ensures a == Returned(Success) ==> gateClosed == old(gateClosed)
      ensures a == Returned(Success) ==>
        generation.Some? && contents(generation.value) == Stored(change.active, change.profiles)
        && activeProfile == Some(selected) && layout == selected.layout
    {
      var wasOpen := !gateClosed;
      CloseGate();
      var mutation := Mutate(change, generation.value);
      if mutation.Returned? && !mutation.value.result.Ok? {
        var closed :- FailClosed();
        return Returned(Report(mutation.value.result));
      }
      if mutation.Threw? || mutation.value.generation == 0 {
        ghost var observed;
        a, observed := ReplaceUnknown(before);
        return;
      }
      a := ReplaceStored(selected, mutation.value.generation, wasOpen, before);
    }

    /** `replaceAll` once the store has the new collection. */
    method ReplaceStored(selected: Profile, g: Generation, wasOpen: bool, before: Before) returns (a: Answer<Result>)
      requires Valid() && gateClosed && initialized && Undoes(before, g) && !before.promotes && g != 0
      requires contents(g).kind == selected.kind && contents(g).Active() == Some(selected) && valid(selected)
      modifies this
      ensures inProgress == old(inProgress)
      ensures Accounted(a) && a != Returned(InvalidProfile) && (a == Returned(PersistenceError) ==> Undone(before, a))
      ensures a.Returned? ==> Valid() && (gateClosed || (wasOpen && InEffect(selected.kind)))
      ensures troubles == old(troubles) ==> a == Returned(Success)
      ensures a == Returned(Success) ==>
        Adopted(g) && gateClosed == !wasOpen && layout == selected.layout && |verdicts| == |old(verdicts)| + 2
    {
      var applied := TryLayout(selected.layout);
      if !applied {
        var back :- Retreat(before, g);
        return Returned(if back then PersistenceError else Indeterminate);
      }
      a := ReplacePublish(g, selected.kind, wasOpen, before);
    }

    /** It is not known whether the mutation took place: it is undone where it seems to have. */
    method ReplaceUnknown(before: Before) returns (a: Answer<Result>, ghost observed: Answer<Option<Generation>>)
      requires before.undo.ReplaceAll? && Undoes(before, 0) && !before.promotes
      modifies this`current, this`gateClosed, this`published, this`initialized, this`activeKind, this`activeProfile,
               this`generation, this`troubles, this`answers, this`deaf
      ensures troubles >= old(troubles) && deaf >= old(deaf) && old(answers) <= answers
      ensures a.Returned? ==> Valid() && gateClosed && !initialized && a.value.Indeterminate?
      ensures a.Threw? ==> troubles > old(troubles)
      ensures |answers| > |old(answers)| ==> Moved(observed, old(generation))
      ensures Moved(observed, old(generation)) ==> |answers| > |old(answers)| || troubles > old(troubles)
      ensures observed.Returned? || a.Threw?
    {
      var seen: Answer<Option<Generation>> := Ask(_ => true);
      observed := seen;
      if seen.Threw? {
        a := Threw;
        return;
      }
      if seen.value.Some? && seen.value.value != 0 && seen.value != generation {
        var compensated := Compensate(before, seen.value.value);
      }
      var closed := FailClosed();
      a := if closed.Threw? then Threw else Returned(Indeterminate);
    }

    /** The store was seen with a generation other than `g`. */
    predicate Moved(observed: Answer<Option<Generation>>, g: Option<Generation>) {
      observed.Returned? && observed.value.Some? && observed.value.value != 0 && observed.value != g
    }

    method ReplacePublish(g: Generation, kind: Kind, wasOpen: bool, before: Before) returns (a: Answer<Result>)
      requires Fitting() && gateClosed && published.None? && initialized && Undoes(before, g) && !before.promotes
      requires contents(g).kind == kind && contents(g).Active().Some? && layout == contents(g).Active().value.layout
      modifies this
      ensures inProgress == old(inProgress)
      ensures a.Returned? ==> Valid() && (gateClosed || (wasOpen && InEffect(kind)))
      ensures a == Returned(Success) ==>
                Adopted(g) && gateClosed == !wasOpen && layout == contents(g).Active().value.layout
      ensures Accounted(a)
      ensures troubles == old(troubles) && Consumable(contents(g)) && g != 0 ==> a == Returned(Success)
      ensures a != Returned(InvalidProfile) && Undone(before, a)
      ensures a == Returned(Success) ==> |verdicts| == |old(verdicts)| + 2
    {
      var saved := Adopt(g, Some(kind));
      var sealed := Granted();
      if saved == Returned(Ok) {
        if sealed {
          saved := Verify();
        } else {
          saved := Returned(Invalid);
        }
      }
      if saved != Returned(Ok) {
        a := UndoReplacement(saved, before, g);
        return;
      }
      if wasOpen {
        PublishProfile();
      }
      return Returned(Success);
    }

    /** Undoes a replacement with the gate closed. */
    method UndoReplacement(failed: Answer<Saved>, before: Before, g: Generation) returns (a: Answer<Result>)
      requires Undoes(before, g) && (failed.Threw? || !failed.value.Ok?) && !before.promotes
      modifies this`layout, this`current, this`gateClosed, this`published, this`initialized, this`activeKind,
               this`activeProfile, this`generation, this`troubles, this`answers, this`layouts, this`deaf
      ensures Valid() && gateClosed && a != Returned(Success)
      ensures troubles >= old(troubles) && deaf >= old(deaf) && old(answers) <= answers
      ensures a.Threw? ==> troubles > old(troubles)
      ensures a.Returned? ==> a.value.Indeterminate? || a.value.ConcurrentModification? || a.value.PersistenceError?
      ensures a.Returned? && !a.value.Indeterminate? ==> layout == before.layout && failed.Returned?
      ensures Undone(before, a) && (a == Returned(Indeterminate) ==> !initialized)
      ensures a.Returned? && failed.Returned? && (troubles == old(troubles) || !a.value.Indeterminate?) ==>
        a.value == if failed.value.Concurrent? then ConcurrentModification else PersistenceError
      ensures |layouts| >= |old(layouts)|
    {
      var closed :- FailClosed();
      var restored := TryLayout(before.layout);
      var compensated := Compensate(before, g);
      if !restored || (failed != Returned(Concurrent) && !compensated) {
        var again :- FailClosed();
        return Returned(Indeterminate);
      }
      return Returned(if failed.Threw? then Indeterminate
        else if failed.value.Concurrent? then ConcurrentModification else PersistenceError);
    }

    /** `initialize`; `complete` says that no service is missing, and `found` is the generation
        that loading and recovering end with, `None` when they are refused or fail. */
    method Initialize(complete: bool, found: Answer<Option<Generation>>, onThread: bool, locked: bool)
        returns (a: Answer<bool>)
      requires Valid()
      modifies this
      ensures Valid() && inProgress == old(inProgress)
      ensures a == Returned(true) ==> activeKind.Some? && InEffect(activeKind.value) && found == Returned(generation)
      ensures a != Returned(true) ==> gateClosed || (old(inProgress) && Untouched())
      ensures onThread && locked && !old(inProgress) && complete && found.Returned? && found.value.Some?
              && found.value.value != 0 && Consumable(contents(found.value.value)) && troubles == old(troubles) ==>
        a == Returned(true)
      ensures a == Returned(true) ==> troubles == old(troubles) && complete && |verdicts| == |old(verdicts)| + 4
      ensures a.Threw? ==> deaf > old(deaf)
      ensures a != Returned(true) ==> LayoutPutBack()
    {
      if !onThread {
        CloseGate();
        return Returned(false);
      }
      if !locked {
        var closed :- FailClosed();
        return Returned(false);
      }
      if inProgress {
        return Returned(false);
      }
      var closed :- FailClosed();
      inProgress := true;
      a := InitializeGuarded(complete, found);
      if a != Returned(true) {
        var again := FailClosed();
        a := if again.Threw? then Threw else Returned(false);
      }
      inProgress := false;
    }

    /** Loads, takes over, and publishes; every failure ends with the layout put back where it
        had been changed, and with the gate closed by the caller. */
    twostate predicate LayoutPutBack()
      reads this
    {
      |layouts| > |old(layouts)| && layouts[|old(layouts)|].1 ==>
        |layouts| == |old(layouts)| + 2 && layouts[|old(layouts)| + 1].0 == old(layout)
    }

    method InitializeGuarded(complete: bool, finding: Answer<Option<Generation>>) returns (a: Answer<bool>)
      requires Valid() && gateClosed && !initialized && inProgress
      modifies this
      ensures inProgress == old(inProgress)
      ensures a == Returned(true) ==> troubles == old(troubles) && complete && |verdicts| == |old(verdicts)| + 4
      ensures a == Returned(true) ==>
                Valid() && activeKind.Some? && InEffect(activeKind.value) && finding == Returned(generation)
      ensures a != Returned(true) ==> gateClosed
      ensures troubles >= old(troubles) && deaf >= old(deaf)
      ensures complete && finding.Returned? && finding.value.Some? && finding.value.value != 0
              && Consumable(contents(finding.value.value)) && troubles == old(troubles) ==>
        a == Returned(true)
      ensures a != Returned(true) ==> LayoutPutBack()
    {
      var found :- finding;
      if !complete || found.None? || found.value == 0 {
        return Returned(false);
      }
      var previousLayout :- SnapshotLayout();
      var reconciled: bool;
      a, reconciled := TakeOver(found.value);
      if a == Returned(true) {
        PublishProfile();
      } else if reconciled {
        var ignored := TryLayout(previousLayout);
      }
    }

    /** The two verified readings of `initialize`, the first of which applies the layout. */
    method TakeOver(g: Generation) returns (a: Answer<bool>, reconciled: bool)
      requires Fitting() && gateClosed && published.None? && !initialized
      modifies this
      ensures inProgress == old(inProgress) && gateClosed && published.None? && Fitting()
      ensures a == Returned(true) ==> initialized && Adopted(g) && layout == contents(g).Active().value.layout
      ensures troubles >= old(troubles) && deaf >= old(deaf)
      ensures g != 0 && Consumable(contents(g)) && troubles == old(troubles) ==> a == Returned(true)
      ensures a == Returned(true) ==> troubles == old(troubles) && |verdicts| == |old(verdicts)| + 4
      ensures old(layouts) <= layouts && |layouts| <= |old(layouts)| + 1
      ensures reconciled <==> |layouts| > |old(layouts)| && layouts[|old(layouts)|].1
    {
      reconciled := false;
      var state := contents(g);
      var offered := Granted();
      if !offered || !Consumable(state) {
        return Returned(false), reconciled;
      }
      var applied := ApplyLayout(state.Active().value.layout);
      if applied != Returned(true) {
        return if applied.Threw? then Threw else Returned(false), reconciled;
      }
      reconciled := true;
      generation, activeKind, activeProfile, initialized := Some(g), Some(state.kind), state.Active(), true;
      var verified := VerifyTakenOver(g);
      return Returned(verified), reconciled;
    }

    method VerifyTakenOver(g: Generation) returns (ok: bool)
      requires Fitting() && initialized && Adopted(g)
      modifies this`generation, this`activeKind, this`activeProfile, this`troubles, this`verdicts
      ensures Fitting() && Adopted(g) && troubles >= old(troubles)
      ensures g != 0 && Consumable(contents(g)) && troubles == old(troubles) ==> ok
      ensures ok ==> troubles == old(troubles) && |verdicts| == |old(verdicts)| + 4
    {
      var saved := Verify();
      var verified := Verify();
      if saved != Returned(Ok) || verified != Returned(Ok) {
        return false;
      }
      saved := Adopt(g, activeKind);
      var sealed := Granted();
      verified := Verify();
      return saved == Returned(Ok) && sealed && verified == Returned(Ok);
    }
  }

  // ---------------------------------------------------------------------------------------
  // Collections of profiles

  /** `validCollection`: as many profiles as kinds, and one valid profile of every kind. */
  predicate ValidCollection(kinds: set<Kind>, valid: Profile -> bool, profiles: seq<Profile>, active: Kind) {
    |profiles| == |kinds| && active in kinds
    && forall k :: k in kinds ==> |Matches(valid, profiles, k)| == 1
  }

  function Matches(valid: Profile -> bool, profiles: seq<Profile>, kind: Kind): set<nat> {
    set i | 0 <= i < |profiles| && profiles[i].kind == kind && valid(profiles[i])
  }

  /** `find_if`: the first profile of a kind, valid or not. */
  function First(profiles: seq<Profile>, kind: Kind): (p: Profile)
    requires exists i :: 0 <= i < |profiles| && profiles[i].kind == kind
    ensures p in profiles && p.kind == kind
  {
    if profiles[0].kind == kind then profiles[0] else First(profiles[1..], kind)
  }

  /** The profiles by kind; the first of a kind counts. */
  function AsMap(profiles: seq<Profile>): map<Kind, Profile> {
    if profiles == [] then map[] else AsMap(profiles[1..])[profiles[0].kind := profiles[0]]
  }

  lemma {:induction false} AsMapFirst(profiles: seq<Profile>, kind: Kind)
    requires exists i :: 0 <= i < |profiles| && profiles[i].kind == kind
    ensures kind in AsMap(profiles) && AsMap(profiles)[kind] == First(profiles, kind)
  {
    if profiles[0].kind != kind {
      var i :| 0 <= i < |profiles| && profiles[i].kind == kind;
      assert profiles[1..][i - 1].kind == kind;
      AsMapFirst(profiles[1..], kind);
    }
  }

  /** Positions that hold the valid profile of some kind in `ks`. */
  function Taken(valid: Profile -> bool, profiles: seq<Profile>, ks: set<Kind>): set<nat> {
    set i | 0 <= i < |profiles| && profiles[i].kind in ks && valid(profiles[i])
  }

  lemma {:induction false} OnePositionEach(valid: Profile -> bool, profiles: seq<Profile>, ks: set<Kind>)
    requires forall k :: k in ks ==> |Matches(valid, profiles, k)| == 1
    ensures |Taken(valid, profiles, ks)| == |ks|
    decreases |ks|
  {
    if ks == {} {
      assert Taken(valid, profiles, ks) == {};
    } else {
      var k :| k in ks;
      var rest := ks - {k};
      OnePositionEach(valid, profiles, rest);
      assert Taken(valid, profiles, ks) == Taken(valid, profiles, rest) + Matches(valid, profiles, k);
      assert Taken(valid, profiles, rest) !! Matches(valid, profiles, k);
    }
  }

  lemma {:induction false} AllPositions(n: nat, s: set<nat>)
    requires (forall i :: i in s ==> i < n) && |s| == n
    ensures forall i :: 0 <= i < n ==> i in s
  {
    if n > 0 {
      if n - 1 in s {
        var less := s - {n - 1};
        AllPositions(n - 1, less);
        forall i | 0 <= i < n ensures i in s {
          assert i < n - 1 ==> i in less;
        }
      } else {
        Crowded(n - 1, s);
      }
    }
  }

  lemma {:induction false} Crowded(n: nat, s: set<nat>)
    requires forall i :: i in s ==> i < n
    ensures |s| <= n
  {
    if n > 0 {
      Crowded(n - 1, s - {n - 1});
      assert s <= (s - {n - 1}) + {n - 1};
      if n - 1 in s {
        assert |s - {n - 1}| == |s| - 1;
      } else {
        assert s - {n - 1} == s;
      }
    } else {
      assert s == {};
    }
  }

  /** In a valid collection every profile is valid, so the first of a kind is the valid one. */
  lemma AllValid(kinds: set<Kind>, valid: Profile -> bool, profiles: seq<Profile>, active: Kind)
    requires ValidCollection(kinds, valid, profiles, active)
    ensures forall i :: 0 <= i < |profiles| ==> valid(profiles[i]) && profiles[i].kind in kinds
    ensures exists i :: 0 <= i < |profiles| && profiles[i].kind == active
    ensures valid(First(profiles, active))
  {
    var taken := Taken(valid, profiles, kinds);
    OnePositionEach(valid, profiles, kinds);
    AllPositions(|profiles|, taken);
    forall i | 0 <= i < |profiles| ensures valid(profiles[i]) && profiles[i].kind in kinds {
      assert i in taken;
    }
    assert |Matches(valid, profiles, active)| == 1;
    var i :| i in Matches(valid, profiles, active);
    assert profiles[i].kind == active;
    var p := First(profiles, active);
    assert p in profiles;
  }
}
