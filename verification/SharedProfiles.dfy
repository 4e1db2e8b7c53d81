/**
  Several processes on one profile store. A call holds the store's file lock from its first
  sync to its end, so calls of different processes do not overlap. What they do not share is
  memory: a root that a process has written and could not store stays pending in it, and its
  next sync writes that root over whatever others have committed meanwhile.
*/
module SharedProfiles {
  import opened AtomicRegister
  import opened Crash
  import opened ProfileStore

  type Pid = nat

  /** What a process keeps between its calls. */
  datatype Memory = Memory(pending: Option<Root>, latched: bool)

  datatype Shared = Shared(disk: Settings, memories: map<Pid, Memory>)

  function Recall(s: Shared, p: Pid): Memory {
    if p in s.memories then s.memories[p] else Memory(None, false)
  }

  /** The root that a process reads: its pending one, else the one on disk. */
  function Reads(s: Shared, p: Pid): Root {
    if Recall(s, p).pending.Some? then Recall(s, p).pending.value else s.disk.root
  }

  /** One call of one process, with the file and its own view of it before and after. Which
      generation groups the view shows besides those on disk does not matter here. */
  datatype Turn = Turn(pid: Pid, call: Call, before: World, after: World)

  /** Answers after which nothing of the root is pending. */
  ghost predicate Settles(call: Call) {
    match call
    case Mutating(_, _, _, saved, _, lazy) =>
      saved.Crashed? || (saved.value == Success && !lazy)
    case Recovering(recovered, _, lazy) =>
      recovered.Crashed? || ((recovered.value == NotNeeded || recovered.value == Recovered) && !lazy)
  }

  ghost predicate Taken(s: Shared, t: Turn, s': Shared) {
    && t.before.disk == s.disk && t.before.view.root == Reads(s, t.pid) && t.after.disk == s'.disk
    && Allowed(Point(t.before, Recall(s, t.pid).latched), t.call, Point(t.after, Recall(s', t.pid).latched))
    && Reads(s', t.pid) == t.after.view.root
    && (Settles(t.call) ==> Recall(s', t.pid).pending.None?)
    && forall q :: q != t.pid ==> Recall(s', q) == Recall(s, q)
  }

  function HeadOf(root: Root): Generation {
    if root.manifest.Some? then root.manifest.value.active else 0
  }

  /** `g` is the active generation for the file or for some process. */
  ghost predicate Shown(s: Shared, g: Generation) {
    HeadOf(s.disk.root) == g || exists q :: PendingNames(s, q, g)
  }

  ghost predicate PendingNames(s: Shared, q: Pid, g: Generation) {
    Recall(s, q).pending.Some? && HeadOf(Recall(s, q).pending.value) == g
  }

  /** A turn that promotes nothing and does not use the name `g` for a new generation. */
  ghost predicate Plain(t: Turn, g: Generation) {
    && (t.call.Mutating? ==> t.call.generation != g)
    && (t.call.Recovering? ==> Head(t.after.disk) in {Head(t.before.disk), Head(t.before.view)}
                               && Head(t.after.view) in {Head(t.before.disk), Head(t.before.view)})
  }

  /** Any sequence of turns. */
  ghost predicate SharedRun(states: seq<Shared>, turns: seq<Turn>) {
    |states| == |turns| + 1
    && forall i {:trigger TurnAt(states, turns, i)} :: 0 <= i < |turns| ==> TurnAt(states, turns, i)
  }

  ghost predicate TurnAt(states: seq<Shared>, turns: seq<Turn>, i: int)
    requires |states| == |turns| + 1 && 0 <= i < |turns|
  {
    Taken(states[i], turns[i], states[i + 1])
  }

  lemma RunGrows(states: seq<Shared>, turns: seq<Turn>, t: Turn, s: Shared)
    requires SharedRun(states, turns) && Taken(states[|turns|], t, s)
    ensures SharedRun(states + [s], turns + [t])
  {
    forall i | 0 <= i < |turns| + 1
      ensures TurnAt(states + [s], turns + [t], i)
    {
      if i < |turns| {
        assert TurnAt(states, turns, i);
      }
    }
  }

  ghost predicate PlainFrom(turns: seq<Turn>, k: nat, g: Generation) {
    forall i :: k <= i < |turns| ==> Plain(turns[i], g)
  }

  /** A generation that neither the file nor any process shows does not come back in one turn. */
  lemma StaysAwayOnce(s: Shared, t: Turn, s': Shared, g: Generation)
    requires Taken(s, t, s') && Plain(t, g) && !Shown(s, g)
    ensures !Shown(s', g) && Head(t.before.view) != g
  {
    assert HeadOf(Reads(s, t.pid)) != g by {
      assert !PendingNames(s, t.pid, g);
    }
    assert Head(t.after.disk) != g && Head(t.after.view) != g;
    forall q ensures !PendingNames(s', q, g) {
      assert !PendingNames(s, q, g);
      if q != t.pid {
        assert Recall(s', q) == Recall(s, q);
      }
    }
  }

  lemma {:induction false} StaysAway(states: seq<Shared>, turns: seq<Turn>, g: Generation, k: nat, j: nat)
    requires SharedRun(states, turns) && k <= j <= |turns| && PlainFrom(turns, k, g) && !Shown(states[k], g)
    ensures !Shown(states[j], g)
    decreases j
  {
    if j > k {
      StaysAway(states, turns, g, k, j - 1);
      assert TurnAt(states, turns, j - 1);
      StaysAwayOnce(states[j - 1], turns[j - 1], states[j], g);
    }
  }

  /** A stored mutation puts the generation it replaced out of sight, except for the other
      processes that hold a pending root which names it. */
  lemma CommitReplaces(s: Shared, t: Turn, s': Shared, g: Generation)
    requires Taken(s, t, s') && Confirmed(t.call) && Head(t.before.view) == g && t.call.generation != g
    ensures Shown(s', g) <==> exists q :: q != t.pid && PendingNames(s, q, g)
  {
    assert Head(t.after.disk) == t.call.generation;
    assert !PendingNames(s', t.pid, g);
    forall q | q != t.pid ensures PendingNames(s', q, g) <==> PendingNames(s, q, g) {
      assert Recall(s', q) == Recall(s, q);
    }
  }

  /** Several processes lose no update: a stored success that replaced a generation named by no
      other process's pending root is followed by no other success from that generation. */
  lemma NoLostUpdatesShared(states: seq<Shared>, turns: seq<Turn>, i: nat, j: nat)
    requires SharedRun(states, turns) && i < j < |turns|
    requires Confirmed(turns[i].call) && turns[i].call.expected.Some?
    requires turns[j].call.Mutating? && turns[j].call.saved == Finished(Success) && turns[j].call.expected.Some?
    requires PlainFrom(turns, i, turns[i].call.expected.value)
    requires forall q :: q != turns[i].pid ==> !PendingNames(states[i], q, turns[i].call.expected.value)
    ensures turns[j].call.expected != turns[i].call.expected
  {
    var g := turns[i].call.expected.value;
    assert TurnAt(states, turns, i) && TurnAt(states, turns, j);
    assert Plain(turns[i], g) && Plain(turns[j], g);
    CommitReplaces(states[i], turns[i], states[i + 1], g);
    StaysAway(states, turns, g, i + 1, j);
    StaysAwayOnce(states[j], turns[j], states[j + 1], g);
  }

  /** The file with another root. */
  function Rooted(s: Settings, root: Root): Settings {
    s.(root := root)
  }

  /** A process with a pending root puts the generation it names back with its next call, which
      need not even be one that is allowed: the sync comes before every test. */
  lemma StaleRootReturns(s: Shared, q: Pid, g: Generation, spare: Generation) returns (t: Turn, s': Shared)
    requires PendingNames(s, q, g) && Recoverable(s.disk) && Recoverable(Rooted(s.disk, Recall(s, q).pending.value))
    requires spare !in s.disk.generations
    ensures Taken(s, t, s') && Plain(t, g)
    ensures t.pid == q && t.call.Mutating? && t.call.saved == Finished(SettingsError)
    ensures HeadOf(s'.disk.root) == g && Settled(s'.disk) == Settled(Rooted(s.disk, Recall(s, q).pending.value))
  {
    var m := Recall(s, q);
    var view := Rooted(s.disk, m.pending.value);
    var call := Mutating(SetActive(Home), None, spare, Finished(SettingsError), 1, false);
    t := Turn(q, call, World(s.disk, view), World(view, view));
    s' := Shared(view, s.memories[q := Memory(None, m.latched)]);
    assert Head(view) == g && g in view.generations;
    assert Allowed(Point(t.before, m.latched), t.call, Point(t.after, m.latched));
  }

  /** `d` is the file after the sync with which the next call of `q` begins, whatever that call
      is and whatever it then answers. */
  ghost predicate Synced(s: Shared, q: Pid, d: Settings) {
    var view := Rooted(s.disk, Reads(s, q));
    SyncMay(World(s.disk, view), World(d, view), Finished(true))
  }

  /** No recovery of the run promotes. */
  ghost predicate Unpromoting(turns: seq<Turn>) {
    forall i :: 0 <= i < |turns| && turns[i].call.Recovering? ==>
                  Head(turns[i].after.disk) in {Head(turns[i].before.disk), Head(turns[i].before.view)}
                  && Head(turns[i].after.view) in {Head(turns[i].before.disk), Head(turns[i].before.view)}
  }

  /** The generation `n` and those that a run has made since. */
  function Since(n: Generation, turns: seq<Turn>): set<Generation> {
    if turns == [] then {n}
    else
      var last := turns[|turns| - 1].call;
      Since(n, turns[..|turns| - 1]) + if last.Mutating? then {last.generation} else {}
  }

  /** File and pending roots name nothing but generations in `g`. */
  ghost predicate Within(s: Shared, g: set<Generation>) {
    HeadOf(s.disk.root) in g && forall q :: HeadOf(Reads(s, q)) in g
  }

  lemma StaysWithin(s: Shared, t: Turn, s': Shared, g: set<Generation>)
    requires Taken(s, t, s') && Unpromoting([t]) && Within(s, g)
    ensures Within(s', if t.call.Mutating? then g + {t.call.generation} else g)
  {
    var g' := if t.call.Mutating? then g + {t.call.generation} else g;
    assert HeadOf(Reads(s, t.pid)) in g;
    assert [t][0] == t;
    assert Head(t.after.disk) in g' && Head(t.after.view) in g';
    forall q ensures HeadOf(Reads(s', q)) in g' {
      assert HeadOf(Reads(s, q)) in g;
      if q != t.pid {
        assert Recall(s', q) == Recall(s, q);
      }
    }
  }

  lemma {:induction false} RunStaysWithin(states: seq<Shared>, turns: seq<Turn>, n: Generation, j: nat)
    requires SharedRun(states, turns) && Unpromoting(turns) && Within(states[0], {n}) && j <= |turns|
    ensures Within(states[j], Since(n, turns[..j]))
  {
    if j > 0 {
      RunStaysWithin(states, turns, n, j - 1);
      assert TurnAt(states, turns, j - 1);
      assert turns[..j][..j - 1] == turns[..j - 1];
      StaysWithin(states[j - 1], turns[j - 1], states[j], Since(n, turns[..j - 1]));
    }
  }

  /** Every later run, and whichever sync comes after it, leaves a file that names `n` or a
      generation made since. */
  ghost predicate Lasts(s: Shared, n: Generation) {
    forall states: seq<Shared>, turns: seq<Turn>, q: Pid, d: Settings ::
      SharedRun(states, turns) && states[0] == s && Unpromoting(turns) && Synced(states[|turns|], q, d) ==>
        HeadOf(d.root) in Since(n, turns)
  }

  /** The condition is exact: a stored success lasts, whatever all processes do, if and only if
      no other process holds a pending root, unless one that names the new generation. */
  lemma UpdateLastsIff(s: Shared, t: Turn, s': Shared)
    requires Taken(s, t, s') && Confirmed(t.call)
    ensures Lasts(s', t.call.generation) <==>
            forall q :: q != t.pid && Recall(s, q).pending.Some? ==> PendingNames(s, q, t.call.generation)
  {
    var n := t.call.generation;
    assert HeadOf(s'.disk.root) == n && Recall(s', t.pid).pending.None?;
    if forall q :: q != t.pid && Recall(s, q).pending.Some? ==> PendingNames(s, q, n) {
      forall q ensures HeadOf(Reads(s', q)) in {n} {
        assert q != t.pid ==> Recall(s', q) == Recall(s, q);
      }
      LastsWithin(s', n);
    } else {
      var q :| q != t.pid && Recall(s, q).pending.Some? && !PendingNames(s, q, n);
      assert Recall(s', q) == Recall(s, q);
      StaleRootOverwrites(s', q, n);
    }
  }

  lemma LastsWithin(s: Shared, n: Generation)
    requires Within(s, {n})
    ensures Lasts(s, n)
  {
    forall states: seq<Shared>, turns: seq<Turn>, q: Pid, d: Settings |
      SharedRun(states, turns) && states[0] == s && Unpromoting(turns) && Synced(states[|turns|], q, d)
      ensures HeadOf(d.root) in Since(n, turns)
    {
      RunStaysWithin(states, turns, n, |turns|);
      assert turns[..|turns|] == turns;
      assert HeadOf(Reads(states[|turns|], q)) in Since(n, turns);
    }
  }

  /** A pending root that names another generation is written over `n` by the next sync of its process. */
  lemma StaleRootOverwrites(s: Shared, q: Pid, n: Generation)
    requires Recall(s, q).pending.Some? && !PendingNames(s, q, n)
    ensures Synced(s, q, Rooted(s.disk, Recall(s, q).pending.value)) && !Lasts(s, n)
  {
    var d := Rooted(s.disk, Recall(s, q).pending.value);
    var states: seq<Shared>, turns: seq<Turn> := [s], [];
    assert SharedRun(states, turns) && Unpromoting(turns);
    assert Synced(states[|turns|], q, d) && HeadOf(d.root) !in Since(n, turns);
  }

  /** A plan that carries out a proper change. */
  ghost predicate Makes(plan: Plan, change: Change) {
    plan.collection == Changed(plan.recoveryTag, change) && ValidCollection(plan.collection) && !Improper(change)
  }

  /** That this happens: process `a` cannot write, not even its restoration, and is left with
      the root pending; process `b` commits and answers Success; the next call of `a` is
      refused, and the update of `b` is gone. The store holds one generation at first, so that
      `b` has no garbage to collect. */
  lemma StaleRootLosesUpdate(plan: Plan, change: Change, a: Pid, b: Pid, spare: Generation)
      returns (states: seq<Shared>, turns: seq<Turn>)
    requires a != b && Sound(plan, plan.before) && plan.recovery == Head(plan.before)
    requires plan.before.generations.Keys == {plan.recovery} && Makes(plan, change)
    requires spare != plan.generation && spare != plan.recovery
    ensures |turns| == 3 && SharedRun(states, turns) && states[0] == Shared(plan.before, map[])
    ensures turns[0].pid == a && turns[0].call.Mutating? && turns[0].call.saved == Finished(IndeterminateState)
    ensures turns[1].pid == b && Confirmed(turns[1].call) && Settled(states[2].disk) == Some(plan.collection)
    ensures turns[2].pid == a && turns[2].call.Mutating? && turns[2].call.saved == Finished(SettingsError)
    ensures Settled(states[3].disk) == Settled(plan.before)
  {
    var first, second := FailedThenCommitted(plan, change, a, b, spare);
    StaleIsRecoverable(plan);
    var t2, s3 := StaleRootReturns(first[2], a, plan.recovery, spare);
    RunGrows(first, second, t2, s3);
    states, turns := first + [s3], second + [t2];
  }

  /** Process `a` cannot write, not even its restoration. */
  lemma FailedWrite(plan: Plan, change: Change, a: Pid, spare: Generation) returns (s0: Shared, t: Turn, s1: Shared)
    requires Sound(plan, plan.before) && spare !in plan.before.generations
    ensures Taken(s0, t, s1) && s0 == Shared(plan.before, map[])
    ensures s1 == Shared(plan.before, map[a := Memory(Some(plan.before.root), true)])
    ensures t.pid == a && t.call.Mutating? && t.call.saved == Finished(IndeterminateState)
  {
    var w := World(plan.before, plan.before);
    s0 := Shared(plan.before, map[]);
    t := Turn(a, Mutating(change, None, spare, Finished(IndeterminateState), 2, false), w, w);
    s1 := Shared(plan.before, map[a := Memory(Some(plan.before.root), true)]);
    assert Allowed(Point(w, false), t.call, Point(w, true));
  }

  /** The failed write of `a` and the commit of `b` after it. */
  lemma FailedThenCommitted(plan: Plan, change: Change, a: Pid, b: Pid, spare: Generation)
      returns (states: seq<Shared>, turns: seq<Turn>)
    requires a != b && Sound(plan, plan.before) && plan.recovery == Head(plan.before)
    requires plan.before.generations.Keys == {plan.recovery} && Makes(plan, change)
    requires spare !in plan.before.generations
    ensures |turns| == 2 && SharedRun(states, turns) && states[0] == Shared(plan.before, map[])
    ensures states[2] == Shared(Committed(plan), map[a := Memory(Some(plan.before.root), true)])
    ensures turns[0].pid == a && turns[0].call.Mutating? && turns[0].call.saved == Finished(IndeterminateState)
    ensures turns[1].pid == b && Confirmed(turns[1].call) && Settled(states[2].disk) == Some(plan.collection)
  {
    var before, after := plan.before, Committed(plan);
    PlanStages(plan);
    var s0, t0, s1 := FailedWrite(plan, change, a, spare);
    var t1 := Turn(b, Mutating(change, Some(plan.recovery), plan.generation, Finished(Success), 0, false),
                   World(before, before), World(after, after));
    var s2 := Shared(after, s1.memories);
    Commits(plan, change);
    assert Taken(s1, t1, s2);
    states, turns := [s0, s1, s2], [t0, t1];
    assert TurnAt(states, turns, 0) && TurnAt(states, turns, 1);
  }

  lemma Commits(plan: Plan, change: Change)
    requires Sound(plan, plan.before) && plan.recovery == Head(plan.before)
             && plan.before.generations.Keys == {plan.recovery} && Makes(plan, change)
    ensures var before, after := plan.before, Committed(plan);
            Allowed(Point(World(before, before), false),
                    Mutating(change, Some(plan.recovery), plan.generation, Finished(Success), 0, false),
                    Point(World(after, after), false))
  {
    PlanStages(plan);
  }

  lemma StaleIsRecoverable(plan: Plan)
    requires Sound(plan, plan.before) && plan.recovery == Head(plan.before)
    ensures var stale := Rooted(Committed(plan), plan.before.root);
            Recoverable(stale) && Settled(stale) == Settled(plan.before) && Head(stale) == Head(plan.before)
  {
    assert Rooted(Committed(plan), plan.before.root) == Stored(plan);
    PlanStages(plan);
  }

  /** The commit after that one is lost in the same way, though no pending root names the
      generation that it replaced. In it the sync that collects garbage fails, so that the
      group which the pending root names is still there. */
  lemma OlderRootLosesUpdate(plan: Plan, change: Change, plan2: Plan, change2: Change, a: Pid, b: Pid,
                             spare: Generation)
      returns (states: seq<Shared>, turns: seq<Turn>)
    requires a != b && Sound(plan, plan.before) && plan.recovery == Head(plan.before)
    requires plan.before.generations.Keys == {plan.recovery} && Makes(plan, change)
    requires plan2.before == Committed(plan) && Sound(plan2, plan2.before) && plan2.recovery == Head(plan2.before)
    requires Makes(plan2, change2)
    requires spare !in Committed(plan2).generations
    ensures |turns| == 4 && SharedRun(states, turns) && states[0] == Shared(plan.before, map[])
    ensures Confirmed(turns[1].call) && Confirmed(turns[2].call) && turns[1].pid == turns[2].pid == b
    ensures forall q :: !PendingNames(states[2], q, Head(states[2].disk))
    ensures Settled(states[3].disk) == Some(plan2.collection)
    ensures turns[3].pid == a && turns[3].call.Mutating? && turns[3].call.saved == Finished(SettingsError)
    ensures Settled(states[4].disk) == Settled(plan.before)
  {
    var first, second := FailedThenCommitted(plan, change, a, b, spare);
    var t2, s3 := UncollectedTurn(first[2], plan2, change2, plan.recovery, b);
    RunGrows(first, second, t2, s3);
    states, turns := first + [s3], second + [t2];
    var t3, s4 := OlderRootReturns(s3, plan, plan2, a, spare);
    RunGrows(states, turns, t3, s4);
    states, turns := states + [s4], turns + [t3];
    PlanStages(plan2);
  }

  /** The call that puts the root of two commits ago back. */
  lemma OlderRootReturns(s: Shared, plan: Plan, plan2: Plan, a: Pid, spare: Generation) returns (t: Turn, s': Shared)
    requires s == Shared(Committed(plan2), map[a := Memory(Some(plan.before.root), true)])
    requires Sound(plan, plan.before) && plan.recovery == Head(plan.before)
             && plan.before.generations.Keys == {plan.recovery}
    requires plan2.before == Committed(plan) && Sound(plan2, plan2.before) && plan2.recovery == Head(plan2.before)
    requires spare !in Committed(plan2).generations
    ensures Taken(s, t, s') && t.pid == a && t.call.Mutating? && t.call.saved == Finished(SettingsError)
    ensures Settled(s'.disk) == Settled(plan.before)
  {
    StaleSurvivesTwice(plan, plan2);
    t, s' := StaleRootReturns(s, a, plan.recovery, spare);
  }

  /** A commit of `b` in which the first sync that collects garbage fails. */
  lemma UncollectedTurn(s: Shared, plan: Plan, change: Change, gone: Generation, b: Pid) returns (t: Turn, s': Shared)
    requires s.disk == plan.before && Recall(s, b) == Memory(None, false)
    requires Sound(plan, plan.before) && plan.recovery == Head(plan.before) && Makes(plan, change)
    requires gone != plan.recovery && gone != plan.generation
    ensures Taken(s, t, s') && t.pid == b && Confirmed(t.call) && s' == Shared(Committed(plan), s.memories)
  {
    var after := Committed(plan);
    var view := after.(generations := after.generations - {gone});
    t := Turn(b, Mutating(change, Some(plan.recovery), plan.generation, Finished(Success), 1, false),
              World(s.disk, s.disk), World(after, view));
    s' := Shared(after, s.memories);
    CommitsUncollected(plan, change, gone);
  }

  lemma CommitsUncollected(plan: Plan, change: Change, gone: Generation)
    requires Sound(plan, plan.before) && plan.recovery == Head(plan.before)
             && Makes(plan, change)
    requires gone != plan.recovery && gone != plan.generation
    ensures var before, after := plan.before, Committed(plan);
            var view := after.(generations := after.generations - {gone});
            Allowed(Point(World(before, before), false),
                    Mutating(change, Some(plan.recovery), plan.generation, Finished(Success), 1, false),
                    Point(World(after, view), false))
  {
    PlanStages(plan);
    PrunedPersists(plan, Committed(plan).(generations := Committed(plan).generations - {gone}));
  }

  lemma StaleSurvivesTwice(plan: Plan, plan2: Plan)
    requires Sound(plan, plan.before) && plan.recovery == Head(plan.before)
             && plan.before.generations.Keys == {plan.recovery}
    requires plan2.before == Committed(plan) && Sound(plan2, plan2.before) && plan2.recovery == Head(plan2.before)
    ensures var stale := Rooted(Committed(plan2), plan.before.root);
            Recoverable(stale) && Settled(stale) == Settled(plan.before) && Head(stale) == Head(plan.before)
    ensures Recoverable(Committed(plan2))
  {
    PlanStages(plan2);
  }

  /** A pending root whose active or recovery group has been collected leaves, with the next sync
      of its process, a file that nothing accepts. */
  lemma StaleRootRuins(s: Shared, q: Pid)
    requires Recall(s, q).pending.Some? && Recall(s, q).pending.value.manifest.Some?
    requires var m := Recall(s, q).pending.value.manifest.value;
             m.active !in s.disk.generations || (m.recovery.Some? && m.recovery.value !in s.disk.generations)
    ensures var stale := Rooted(s.disk, Recall(s, q).pending.value);
            Synced(s, q, stale) && Ruined(stale) && !Recoverable(stale) && !Loadable(stale)
  {
  }

  /** One commit is enough for that where the store has a recovery generation, which every
      commit but the first leaves behind: process `a` is left with the root pending, process
      `b` commits and collects the old recovery generation, and the next sync of `a` ruins the
      file. */
  lemma OneCommitRuins(plan: Plan, change: Change, a: Pid, b: Pid, spare: Generation)
      returns (states: seq<Shared>, turns: seq<Turn>, d: Settings)
    requires a != b && Sound(plan, plan.before) && plan.recovery == Head(plan.before) && plan.before.root.recovery.Some?
    requires Makes(plan, change)
    requires spare !in plan.before.generations && spare != plan.generation
    ensures |turns| == 2 && SharedRun(states, turns) && states[0] == Shared(plan.before, map[])
    ensures turns[0].pid == a && turns[0].call.Mutating? && turns[0].call.saved == Finished(IndeterminateState)
    ensures turns[1].pid == b && Confirmed(turns[1].call) && turns[1].call.errors == 0
    ensures states[2].disk.generations.Keys == {plan.generation, plan.recovery}
    ensures Synced(states[2], a, d) && Ruined(d)
  {
    var before := plan.before;
    var after := Collected(plan);
    CommitsCollected(plan, change);
    var s0, t0, s1 := FailedWrite(plan, change, a, spare);
    var t1 := Turn(b, Mutating(change, Some(plan.recovery), plan.generation, Finished(Success), 0, false),
                   World(before, before), World(after, after));
    var s2 := Shared(after, s1.memories);
    assert Taken(s1, t1, s2);
    states, turns := [s0, s1, s2], [t0, t1];
    assert TurnAt(states, turns, 0) && TurnAt(states, turns, 1);
    d := Rooted(after, before.root);
    assert before.root.recovery.value != plan.recovery && before.root.recovery.value != plan.generation;
    StaleRootRuins(s2, a);
  }

  /** The committed file with all garbage collected. */
  function Collected(plan: Plan): Settings {
    Committed(plan).(generations := map g | g in Committed(plan).generations && g in {plan.generation, plan.recovery}
                                        :: Committed(plan).generations[g])
  }

  lemma CommitsCollected(plan: Plan, change: Change)
    requires Sound(plan, plan.before) && plan.recovery == Head(plan.before)
             && Makes(plan, change)
    ensures var before, after := plan.before, Collected(plan);
            Allowed(Point(World(before, before), false),
                    Mutating(change, Some(plan.recovery), plan.generation, Finished(Success), 0, false),
                    Point(World(after, after), false))
    ensures Collected(plan).generations.Keys == {plan.generation, plan.recovery}
  {
    PlanStages(plan);
    PrunedPersists(plan, Collected(plan));
  }
}
