/**
  The reentrant, sealable configuration lock. Its static fields change only under a mutex,
  which the constructor gives up while it tries the lock file, so a run interleaves the
  critical sections of any number of threads and the lock files of other processes.
*/
module TransactionLock {
  import opened Crash

  type Id = nat
  type Thread = nat
  type Path = nat

  /** Where one lock object is: waiting on the condition, between its two critical sections
      before or after trying the file, holding the lock, or without it. */
  datatype Phase =
    | Waiting(thread: Thread, path: Path)
    | Window(thread: Thread, path: Path)
    | Tried(thread: Thread, path: Path, granted: bool)
    | Live(thread: Thread, depth: int)
    | Over

  datatype Holder = Theirs | Trying(id: Id) | Installed

  datatype State = State(
    depth: int, owner: Option<Thread>, blocked: int, file: Option<Path>,
    objects: map<Id, Phase>, files: map<Path, Holder>)

  datatype Event =
    | Begin(id: Id, thread: Thread, path: Path)
    | TimeOut(id: Id)
    | Pass(id: Id)
    | TryFile(id: Id, granted: bool)
    | Finish(id: Id)
    | Release(id: Id)
    | Seal(id: Id, caller: Thread)
    | TheyTake(path: Path)
    | TheyDrop(path: Path)

  const START := State(0, None, 0, None, map[], map[])

  // ---------------------------------------------------------------------------------------
  // The critical sections

  predicate MayPass(s: State, thread: Thread) {
    s.depth == 0 || (s.owner == Some(thread) && s.blocked == 0)
  }

  predicate Enabled(s: State, e: Event) {
    match e
    case Begin(id, _, _) => id !in s.objects
    case TimeOut(id) => id in s.objects && s.objects[id].Waiting?
    case Pass(id) => id in s.objects && s.objects[id].Waiting? && MayPass(s, s.objects[id].thread)
    case TryFile(id, granted) =>
      id in s.objects && s.objects[id].Window? && (granted ==> s.objects[id].path !in s.files)
    case Finish(id) => id in s.objects && s.objects[id].Tried?
    case Release(id) => id in s.objects && s.objects[id].Live?
    case Seal(id, _) => id in s.objects
    case TheyTake(path) => path !in s.files
    case TheyDrop(path) => path in s.files && s.files[path].Theirs?
  }

  function Acquire(s: State, id: Id, thread: Thread): State {
    s.(depth := s.depth + 1, objects := s.objects[id := Live(thread, s.depth + 1)])
  }

  function Next(s: State, e: Event): State
    requires Enabled(s, e)
  {
    match e
    case Begin(id, thread, path) =>
      s.(objects := s.objects[id :=
        if s.depth != 0 && s.owner == Some(thread) && s.blocked != 0 then Over else Waiting(thread, path)])
    case TimeOut(id) => s.(objects := s.objects[id := Over])
    case Pass(id) =>
      var me := s.objects[id];
      if s.depth == 0 then s.(objects := s.objects[id := Window(me.thread, me.path)])
      else Acquire(s, id, me.thread)
    case TryFile(id, granted) =>
      var me := s.objects[id];
      s.(objects := s.objects[id := Tried(me.thread, me.path, granted)],
         files := if granted then s.files[me.path := Trying(id)] else s.files)
    case Finish(id) =>
      var me := s.objects[id];
      if !me.granted then s.(objects := s.objects[id := Over])
      else if s.depth != 0 then s.(objects := s.objects[id := Over], files := s.files - {me.path})
      else
        Acquire(s.(file := Some(me.path), files := s.files[me.path := Installed], owner := Some(me.thread)), id,
                me.thread)
    case Release(id) =>
      var left := s.(depth := s.depth - 1, objects := s.objects[id := Over],
                     blocked := if s.blocked == s.objects[id].depth then 0 else s.blocked);
      if left.depth != 0 then left
      else left.(owner := None, blocked := 0, file := None,
                 files := if s.file.Some? then s.files - {s.file.value} else s.files)
    case Seal(id, caller) =>
      if Sealable(s, id, caller) then s.(blocked := s.objects[id].depth) else s
    case TheyTake(path) => s.(files := s.files[path := Theirs])
    case TheyDrop(path) => s.(files := s.files - {path})
  }

  predicate Sealable(s: State, id: Id, caller: Thread)
    requires id in s.objects
  {
    s.objects[id].Live? && s.objects[id].thread == caller && s.owner == Some(caller) && s.objects[id].depth == s.depth
  }

  // ---------------------------------------------------------------------------------------
  // Runs

  predicate Possible(s: State, events: seq<Event>)
    decreases |events|
  {
    events == [] || (Enabled(s, events[0]) && Possible(Next(s, events[0]), events[1..]))
  }

  function After(s: State, events: seq<Event>): State
    requires Possible(s, events)
    decreases |events|
  {
    if events == [] then s else After(Next(s, events[0]), events[1..])
  }

  /** Some lock object gets the lock during the run. */
  predicate Grants(s: State, events: seq<Event>)
    requires Possible(s, events)
    decreases |events|
  {
    events != [] && (Next(s, events[0]).depth > s.depth || Grants(Next(s, events[0]), events[1..]))
  }

  /** Every release is of the newest acquisition. */
  predicate LastInFirstOut(s: State, events: seq<Event>)
    requires Possible(s, events)
    decreases |events|
  {
    events == []
    || ((events[0].Release? ==> s.objects[events[0].id].depth == s.depth)
        && LastInFirstOut(Next(s, events[0]), events[1..]))
  }

  predicate Holds(s: State, id: Id) {
    id in s.objects && s.objects[id].Live?
  }

  function Holders(s: State): set<Id> {
    set id | id in s.objects && Holds(s, id)
  }

  // ---------------------------------------------------------------------------------------
  // What every interleaving keeps

  ghost predicate Inv(s: State) {
    && |Holders(s)| == s.depth
    && (forall id :: Holds(s, id) ==> s.owner == Some(s.objects[id].thread) && s.objects[id].depth >= 1)
    && (s.file.Some? <==> s.depth > 0)
    && (s.owner.Some? <==> s.depth > 0)
    && (forall p :: p in s.files && s.files[p].Installed? <==> s.file == Some(p))
    && (forall id :: id in s.objects && s.objects[id].Tried? && s.objects[id].granted ==>
          s.objects[id].path in s.files && s.files[s.objects[id].path] == Trying(id))
    && (s.blocked != 0 ==> exists id :: Holds(s, id) && s.objects[id].depth == s.blocked)
  }

  lemma Gains(s: State, s': State, id: Id)
    requires !Holds(s, id) && Holds(s', id)
    requires forall i :: i != id ==> (Holds(s', i) <==> Holds(s, i))
    ensures |Holders(s')| == |Holders(s)| + 1
  {
    forall i ensures i in Holders(s') <==> i in Holders(s) + {id} {
      assert i != id ==> (Holds(s', i) <==> Holds(s, i));
    }
    assert Holders(s') == Holders(s) + {id};
  }

  lemma Loses(s: State, s': State, id: Id)
    requires Holds(s, id) && !Holds(s', id)
    requires forall i :: i != id ==> (Holds(s', i) <==> Holds(s, i))
    ensures |Holders(s')| == |Holders(s)| - 1
  {
    forall i ensures i in Holders(s') <==> i in Holders(s) - {id} {
      assert i != id ==> (Holds(s', i) <==> Holds(s, i));
    }
    assert Holders(s') == Holders(s) - {id};
  }

  lemma SameHolders(s: State, s': State)
    requires forall i :: Holds(s', i) <==> Holds(s, i)
    ensures Holders(s') == Holders(s)
  {
    forall i ensures i in Holders(s') <==> i in Holders(s) {
      assert Holds(s', i) <==> Holds(s, i);
    }
  }

  lemma Nobody(s: State)
    requires |Holders(s)| == 0
    ensures forall id :: !Holds(s, id)
  {
    forall id ensures !Holds(s, id) {
      assert id !in Holders(s);
    }
  }

  lemma KeepsAcquire(s: State, e: Event)
    requires Inv(s) && Enabled(s, e) && (e.Pass? || e.Finish?)
    ensures Inv(Next(s, e))
  {
    var s' := Next(s, e);
    if s.depth == 0 {
      Nobody(s);
    }
    if Holds(s', e.id) {
      Gains(s, s', e.id);
    } else {
      SameHolders(s, s');
    }
  }

  lemma KeepsRelease(s: State, e: Event)
    requires Inv(s) && Enabled(s, e) && e.Release?
    ensures Inv(Next(s, e))
  {
    var s' := Next(s, e);
    Loses(s, s', e.id);
    if s'.depth == 0 {
      Nobody(s');
    }
  }

  lemma KeepsOther(s: State, e: Event)
    requires Inv(s) && Enabled(s, e) && !e.Pass? && !e.Finish? && !e.Release?
    ensures Inv(Next(s, e))
  {
    SameHolders(s, Next(s, e));
  }

  lemma KeepsInv(s: State, e: Event)
    requires Inv(s) && Enabled(s, e)
    ensures Inv(Next(s, e))
  {
    if e.Pass? || e.Finish? {
      KeepsAcquire(s, e);
    } else if e.Release? {
      KeepsRelease(s, e);
    } else {
      KeepsOther(s, e);
    }
  }

  /** Every state of every interleaving: all holders are one thread's, there are `depth` of
      them, and the file of the lock is held exactly while there are any. */
  lemma {:induction false} RunsKeepInv(s: State, events: seq<Event>)
    requires Inv(s) && Possible(s, events)
    ensures Inv(After(s, events))
    decreases |events|
  {
    if events != [] {
      KeepsInv(s, events[0]);
      RunsKeepInv(Next(s, events[0]), events[1..]);
    }
  }

  lemma MutualExclusion(events: seq<Event>, i: Id, j: Id)
    requires Possible(START, events)
    ensures var s := After(START, events);
      && (Holds(s, i) && Holds(s, j) ==> s.objects[i].thread == s.objects[j].thread)
      && (Holds(s, i) ==> s.file.Some? && s.file.value in s.files && s.files[s.file.value].Installed?)
      && |Holders(s)| == s.depth
      && (s.file.Some? <==> s.depth > 0)
      // the destructor's check never ends the process, and a seal never outlives its last holder
      && (Holds(s, i) ==> s.depth > 0 && s.owner == Some(s.objects[i].thread))
      && (s.blocked != 0 ==> s.depth > 0)
  {
    assert Holders(START) == {};
    RunsKeepInv(START, events);
    var s := After(START, events);
    if Holds(s, i) {
      assert i in Holders(s);
    }
    if s.blocked != 0 {
      var id :| Holds(s, id) && s.objects[id].depth == s.blocked;
      assert id in Holders(s);
    }
  }

  // ---------------------------------------------------------------------------------------
  // The lock can be had

  lemma Unroll(s: State, e: Event, rest: seq<Event>)
    requires Enabled(s, e) && Possible(Next(s, e), rest)
    ensures Possible(s, [e] + rest) && After(s, [e] + rest) == After(Next(s, e), rest)
  {
    assert ([e] + rest)[1..] == rest;
  }

  /** Where nobody holds the lock and its file is free, a thread that tries gets it: the four
      sections of its constructor end with the lock held once, by that thread, under that file. */
  lemma FreeLockIsGranted(s: State, id: Id, thread: Thread, path: Path) returns (run: seq<Event>)
    requires Inv(s) && s.depth == 0 && id !in s.objects && path !in s.files
    ensures run == [Begin(id, thread, path), Pass(id), TryFile(id, true), Finish(id)] && Possible(s, run)
    ensures var s' := After(s, run);
      && Holders(s') == {id} && s'.objects[id] == Live(thread, 1) && s'.depth == 1 && s'.owner == Some(thread)
      && s'.file == Some(path) && s'.files == s.files[path := Installed]
      && forall i :: i != id ==>
           (i in s'.objects <==> i in s.objects) && (i in s.objects ==> s'.objects[i] == s.objects[i])
  {
    var s1 := Next(s, Begin(id, thread, path));
    var s2 := Next(s1, Pass(id));
    var s3 := Next(s2, TryFile(id, true));
    run := [Finish(id)];
    Unroll(s3, Finish(id), []);
    Unroll(s2, TryFile(id, true), run);
    Unroll(s1, Pass(id), [TryFile(id, true)] + run);
    Unroll(s, Begin(id, thread, path), [Pass(id)] + ([TryFile(id, true)] + run));
    run := [Begin(id, thread, path)] + ([Pass(id)] + ([TryFile(id, true)] + run));
    Nobody(s);
    assert [Finish(id)] == [Finish(id)] + [];
  }

  /** The thread that holds it and has not sealed it gets it again, with the next number. */
  lemma HolderReenters(s: State, id: Id, thread: Thread, path: Path)
    requires Inv(s) && s.depth > 0 && s.owner == Some(thread) && s.blocked == 0 && id !in s.objects
    ensures var run := [Begin(id, thread, path)] + [Pass(id)];
      Possible(s, run)
      && After(s, run) == s.(depth := s.depth + 1, objects := s.objects[id := Live(thread, s.depth + 1)])
  {
    var s1 := Next(s, Begin(id, thread, path));
    assert After(s1, [Pass(id)]) == Next(s1, Pass(id));
    Unroll(s, Begin(id, thread, path), [Pass(id)]);
    assert Next(s1, Pass(id)).objects == s.objects[id := Live(thread, s.depth + 1)];
  }

  /** Releasing what was acquired last leaves depth, owner, file and files as they were before. */
  lemma ReleaseUndoesFirst(s: State, id: Id, thread: Thread, path: Path) returns (run: seq<Event>)
    requires Inv(s) && s.depth == 0 && id !in s.objects && path !in s.files
    ensures run == [Begin(id, thread, path), Pass(id), TryFile(id, true), Finish(id)] && Possible(s, run)
    ensures Holds(After(s, run), id)
    ensures Next(After(s, run), Release(id)) == s.(objects := s.objects[id := Over])
  {
    run := FreeLockIsGranted(s, id, thread, path);
    var s' := After(s, run);
    assert s'.files - {path} == s.files;
    Nobody(s);
    assert s'.objects[id := Over] == s.objects[id := Over];
  }

  lemma ReleaseUndoesNested(s: State, id: Id, thread: Thread, path: Path)
    requires Inv(s) && s.depth > 0 && s.owner == Some(thread) && s.blocked == 0 && id !in s.objects
    ensures var run := [Begin(id, thread, path)] + [Pass(id)];
      && Possible(s, run) && Holds(After(s, run), id)
      && Next(After(s, run), Release(id)) == s.(objects := s.objects[id := Over])
  {
    HolderReenters(s, id, thread, path);
  }

  // ---------------------------------------------------------------------------------------
  // Seals, when locks are released newest first

  /** Acquisitions are numbered without repetition and not beyond the depth. */
  ghost predicate Stacked(s: State) {
    && (forall i :: Holds(s, i) ==> s.objects[i].depth <= s.depth)
    && (forall i, j :: Holds(s, i) && Holds(s, j) && s.objects[i].depth == s.objects[j].depth ==> i == j)
  }

  lemma KeepsStacked(s: State, e: Event)
    requires Inv(s) && Stacked(s) && Enabled(s, e)
    requires e.Release? ==> s.objects[e.id].depth == s.depth
    ensures Stacked(Next(s, e))
  {
    var s' := Next(s, e);
    forall i | Holds(s', i) && !(e.Pass? && i == e.id) && !(e.Finish? && i == e.id)
      ensures Holds(s, i) && s.objects[i] == s'.objects[i] && (e.Release? ==> i != e.id && s.objects[i].depth < s.depth)
    {
    }
  }

  /** After a seal nothing acquires the lock before the sealing object is released. */
  lemma {:induction false} SealHolds(s: State, sealer: Id, events: seq<Event>)
    requires Inv(s) && Stacked(s)
    requires Holds(s, sealer) && s.blocked == s.depth == s.objects[sealer].depth
    requires Possible(s, events) && LastInFirstOut(s, events) && Release(sealer) !in events
    ensures !Grants(s, events)
    decreases |events|
  {
    if events != [] {
      var e := events[0];
      assert sealer in Holders(s);
      KeepsInv(s, e);
      KeepsStacked(s, e);
      SealHolds(Next(s, e), sealer, events[1..]);
    }
  }

  lemma {:induction false} RunsStacked(s: State, events: seq<Event>)
    requires Inv(s) && Stacked(s) && Possible(s, events) && LastInFirstOut(s, events)
    ensures Inv(After(s, events)) && Stacked(After(s, events))
    decreases |events|
  {
    if events != [] {
      KeepsInv(s, events[0]);
      KeepsStacked(s, events[0]);
      RunsStacked(Next(s, events[0]), events[1..]);
    }
  }

  /** The same from the start: any run up to a successful seal, and any run after it. */
  lemma SealedUntilReleased(before: seq<Event>, sealer: Id, caller: Thread, later: seq<Event>)
    requires Possible(START, before) && LastInFirstOut(START, before)
    requires Holds(After(START, before), sealer) && Sealable(After(START, before), sealer, caller)
    requires var s := Next(After(START, before), Seal(sealer, caller));
      Possible(s, later) && LastInFirstOut(s, later) && Release(sealer) !in later
    ensures !Grants(Next(After(START, before), Seal(sealer, caller)), later)
  {
    assert Holders(START) == {};
    RunsStacked(START, before);
    var s := After(START, before);
    KeepsInv(s, Seal(sealer, caller));
    KeepsStacked(s, Seal(sealer, caller));
    SealHolds(Next(s, Seal(sealer, caller)), sealer, later);
  }

  // ---------------------------------------------------------------------------------------
  // Seals, whatever the order of releases

  /** No other holder can lift or replace the seal: its number is out of the range that the
      depth can still reach while it and the sealing object both hold the lock. */
  ghost predicate Guarded(s: State, sealer: Id)
    requires Holds(s, sealer)
  {
    forall id :: Holds(s, id) && id != sealer ==>
      s.objects[id].depth == 1 || s.objects[id].depth > s.objects[sealer].depth
  }

  ghost predicate Sealed(s: State, sealer: Id) {
    Holds(s, sealer) && s.blocked == s.objects[sealer].depth && s.depth <= s.blocked
  }

  lemma Two(s: State, i: Id, j: Id)
    requires Inv(s) && Holds(s, i) && Holds(s, j) && i != j
    ensures s.depth >= 2
  {
    var rest := Holders(s) - {i};
    assert j in rest;
    assert |rest| == s.depth - 1;
  }

  lemma GuardedStep(s: State, sealer: Id, e: Event)
    requires Inv(s) && Sealed(s, sealer) && Guarded(s, sealer) && Enabled(s, e) && e != Release(sealer)
    ensures Next(s, e).depth <= s.depth && Sealed(Next(s, e), sealer) && Guarded(Next(s, e), sealer)
  {
    assert sealer in Holders(s);
    if (e.Release? || e.Seal?) && Holds(s, e.id) && e.id != sealer {
      Two(s, e.id, sealer);
    }
  }

  lemma {:induction false} GuardedRun(s: State, sealer: Id, events: seq<Event>)
    requires Inv(s) && Sealed(s, sealer) && Guarded(s, sealer) && Possible(s, events) && Release(sealer) !in events
    ensures !Grants(s, events)
    decreases |events|
  {
    if events != [] {
      GuardedStep(s, sealer, events[0]);
      KeepsInv(s, events[0]);
      GuardedRun(Next(s, events[0]), sealer, events[1..]);
    }
  }

  /** A run that gets past the seal: release others until `other` is the one whose number is
      the depth, let it seal and go, and acquire again. */
  lemma {:induction false} GetPast(s: State, sealer: Id, other: Id, spare: Id) returns (events: seq<Event>)
    requires Inv(s) && Holds(s, sealer) && Holds(s, other) && other != sealer && spare !in s.objects
    requires 2 <= s.objects[other].depth <= s.depth
    ensures Possible(s, events) && Grants(s, events) && Release(sealer) !in events
    decreases s.depth
  {
    var thread := s.objects[other].thread;
    if s.objects[other].depth == s.depth {
      var s1 := Next(s, Seal(other, thread));
      var s2 := Next(s1, Release(other));
      var s3 := Next(s2, Begin(spare, thread, 0));
      KeepsInv(s, Seal(other, thread));
      KeepsInv(s1, Release(other));
      assert sealer in Holders(s2);
      assert Enabled(s3, Pass(spare));
      assert Grants(s3, [Pass(spare)]);
      events := [Seal(other, thread)] + ([Release(other)] + ([Begin(spare, thread, 0)] + [Pass(spare)]));
      Chain(s2, Begin(spare, thread, 0), [Pass(spare)]);
      Chain(s1, Release(other), [Begin(spare, thread, 0)] + [Pass(spare)]);
      Chain(s, Seal(other, thread), [Release(other)] + ([Begin(spare, thread, 0)] + [Pass(spare)]));
    } else {
      var third := Third(s, sealer, other);
      KeepsInv(s, Release(third));
      var rest := GetPast(Next(s, Release(third)), sealer, other, spare);
      events := [Release(third)] + rest;
      Chain(s, Release(third), rest);
    }
  }

  lemma Chain(s: State, e: Event, rest: seq<Event>)
    requires Enabled(s, e) && Possible(Next(s, e), rest) && Grants(Next(s, e), rest)
    ensures Possible(s, [e] + rest) && Grants(s, [e] + rest)
  {
    assert ([e] + rest)[1..] == rest;
  }

  lemma Third(s: State, i: Id, j: Id) returns (k: Id)
    requires Inv(s) && Holds(s, i) && Holds(s, j) && s.depth > 2
    ensures Holds(s, k) && k != i && k != j
  {
    var rest := Holders(s) - {i} - {j};
    assert |Holders(s) - {i}| == s.depth - 1;
    assert |rest| >= s.depth - 2;
    k :| k in rest;
  }

  /** Right after a seal: no later run gets the lock before the sealing object is released,
      if and only if every other holder is numbered 1 or beyond the depth. */
  lemma SealHoldsIffGuarded(s: State, sealer: Id, spare: Id)
    requires Inv(s) && Holds(s, sealer) && s.blocked == s.depth == s.objects[sealer].depth && spare !in s.objects
    ensures (forall events :: Possible(s, events) && Release(sealer) !in events ==> !Grants(s, events))
      <==> Guarded(s, sealer)
  {
    if Guarded(s, sealer) {
      forall events | Possible(s, events) && Release(sealer) !in events ensures !Grants(s, events) {
        GuardedRun(s, sealer, events);
      }
    } else {
      var other :| Holds(s, other) && other != sealer && 2 <= s.objects[other].depth <= s.depth;
      var events := GetPast(s, sealer, other, spare);
    }
  }

  /** Where locks were released newest first so far, a seal survives any later order of
      releases if and only if at most two acquisitions are nested. */
  lemma NestingDecides(s: State, sealer: Id)
    requires Inv(s) && Stacked(s) && Holds(s, sealer) && s.objects[sealer].depth == s.depth
    ensures Guarded(s, sealer) <==> s.depth <= 2
  {
    if s.depth > 2 {
      var i := Third(s, sealer, sealer);
      var j := Third(s, sealer, i);
      assert s.objects[i].depth != s.objects[j].depth;
    }
  }

  // ---------------------------------------------------------------------------------------
  // The class: one method for each critical section

  class ConfigurationLock {
    var depth: int
    var owner: Option<Thread>
    var blocked: int
    var file: Option<Path>
    var objects: map<Id, Phase>
    var files: map<Path, Holder>

    function View(): State
      reads this
    {
      State(depth, owner, blocked, file, objects, files)
    }

    constructor ()
      ensures View() == START && Inv(View())
    {
      depth, owner, blocked, file, objects, files := 0, None, 0, None, map[], map[];
      new;
      assert Holders(START) == {};
    }

    /** The constructor up to its wait. */
    method BeginLock(id: Id, thread: Thread, path: Path)
      requires Inv(View()) && Enabled(View(), Begin(id, thread, path))
      modifies this
      ensures View() == Next(old(View()), Begin(id, thread, path)) && Inv(View())
      ensures objects == old(objects)[id := objects[id]] && depth == old(depth) && owner == old(owner)
              && blocked == old(blocked) && file == old(file) && files == old(files)
      ensures objects[id] == Over || objects[id] == Waiting(thread, path)
      ensures objects[id] == Over <==> depth > 0 && owner == Some(thread) && blocked != 0
    {
      KeepsInv(View(), Begin(id, thread, path));
      if depth != 0 && owner == Some(thread) && blocked != 0 {
        objects := objects[id := Over];
        return;
      }
      objects := objects[id := Waiting(thread, path)];
    }

    /** The constructor from the end of its wait to its end, or to where it gives up the mutex. */
    method PassWait(id: Id) returns (locked: bool)
      requires Inv(View()) && Enabled(View(), Pass(id))
      modifies this
      ensures View() == Next(old(View()), Pass(id)) && Inv(View())
      ensures locked <==> Holds(View(), id)
      ensures locked <==> old(depth) > 0
      ensures var me := old(objects[id]);
        objects == old(objects)[id := if locked then Live(me.thread, depth) else Window(me.thread, me.path)]
      ensures depth == old(depth) + (if locked then 1 else 0)
      ensures owner == old(owner) && blocked == old(blocked) && file == old(file) && files == old(files)
    {
      KeepsInv(View(), Pass(id));
      var me := objects[id];
      if depth == 0 {
        objects := objects[id := Window(me.thread, me.path)];
        return false;
      }
      depth := depth + 1;
      objects := objects[id := Live(me.thread, depth)];
      return true;
    }

    /** The constructor after it has the mutex back. */
    method FinishLock(id: Id) returns (locked: bool)
      requires Inv(View()) && Enabled(View(), Finish(id))
      modifies this
      ensures View() == Next(old(View()), Finish(id)) && Inv(View())
      ensures locked <==> Holds(View(), id)
      ensures locked <==> old(objects[id]).granted && old(depth) == 0
      ensures var me := old(objects[id]);
        && (locked ==> depth == 1 && owner == Some(me.thread) && file == Some(me.path)
                       && files == old(files)[me.path := Installed]
                       && objects == old(objects)[id := Live(me.thread, 1)])
        && (!locked ==> depth == old(depth) && owner == old(owner) && file == old(file)
                        && files == (if me.granted then old(files) - {me.path} else old(files))
                        && objects == old(objects)[id := Over])
      ensures blocked == old(blocked)
    {
      KeepsInv(View(), Finish(id));
      var me := objects[id];
      if !me.granted || depth != 0 {
        if me.granted {
          files := files - {me.path};
        }
        objects := objects[id := Over];
        return false;
      }
      file := Some(me.path);
      files := files[me.path := Installed];
      owner := Some(me.thread);
      depth := depth + 1;
      objects := objects[id := Live(me.thread, depth)];
      return true;
    }

    /** The destructor of an object that holds the lock; it never ends the process. */
    method Unlock(id: Id) returns (terminates: bool)
      requires Inv(View()) && Enabled(View(), Release(id))
      modifies this
      ensures !terminates && View() == Next(old(View()), Release(id)) && Inv(View())
      ensures depth == old(depth) - 1 && objects == old(objects)[id := Over]
      ensures blocked == if depth == 0 || old(blocked) == old(objects[id]).depth then 0 else old(blocked)
      ensures depth > 0 ==> owner == old(owner) && file == old(file) && files == old(files)
      ensures depth == 0 ==> owner.None? && file.None? && old(file).Some? && files == old(files) - {old(file).value}
    {
      KeepsInv(View(), Release(id));
      assert Holds(View(), id) && id in Holders(View());
      var me := objects[id];
      if depth <= 0 || owner != Some(me.thread) {
        return true;
      }
      depth := depth - 1;
      objects := objects[id := Over];
      if blocked == me.depth {
        blocked := 0;
      }
      if depth == 0 {
        files := files - {file.value};
        file, owner, blocked := None, None, 0;
      }
      return false;
    }

    /** `sealReentrantAcquisition` */
    method SealReentry(id: Id, caller: Thread) returns (ok: bool)
      requires Inv(View()) && Enabled(View(), Seal(id, caller))
      modifies this
      ensures View() == Next(old(View()), Seal(id, caller)) && Inv(View())
      ensures ok <==> old(Holds(View(), id) && objects[id].thread == caller && objects[id].depth == depth)
      ensures ok ==> View() == old(View()).(blocked := old(depth))
      ensures !ok ==> View() == old(View())
    {
      KeepsInv(View(), Seal(id, caller));
      var me := objects[id];
      if !me.Live? || me.thread != caller || owner != Some(caller) || me.depth != depth {
        return false;
      }
      blocked := me.depth;
      return true;
    }
  }
}
