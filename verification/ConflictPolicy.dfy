/**
  Answers to name conflicts in a batch of received files. A user may answer once for the rest
  of a batch; the policy reuses that answer for later items of the same peer and batch as long
  as they come in order and are not replayed. The history of calls is kept as a ghost log.
*/
module ConflictPolicy {
  import opened Bytes
  import opened Crash
  import opened MapFacts

  const MAX_BATCHES := 64
  const WORD := 0x1_0000_0000

  type Uuid = seq<byte>
  type Key = seq<byte>

  datatype Action = Replace | Rename | Skip

  datatype Decision = Decision(action: Action, all: bool)

  datatype Request = Request(peer: Uuid, batch: seq<byte>, transfer: seq<byte>, index: nat, count: nat)

  datatype Batch = Batch(action: Action, count: nat, last: nat, seen: set<seq<byte>>)

  datatype Kind = Asked | Reused | Passed

  datatype Entry = Entry(kind: Kind, request: Request, decision: Decision)

  predicate WellTyped(r: Request) {
    |r.peer| == 16 && r.index < WORD && r.count < WORD
  }

  predicate Null(peer: Uuid) {
    forall i :: 0 <= i < |peer| ==> peer[i] == 0
  }

  /** `scopeKey`, with the empty array as `None`. */
  function Scope(peer: Uuid, batch: seq<byte>): (k: Option<Key>)
    ensures k.Some? <==> |batch| == 16 && exists i :: 0 <= i < |peer| && peer[i] != 0
    ensures k.Some? ==> k.value == peer + batch
  {
    if Null(peer) || |batch| != 16 then None else Some(peer + batch)
  }

  predicate ValidIdentity(r: Request) {
    |r.transfer| == 16 && r.count > 0 && r.index < r.count
  }

  predicate Final(r: Request) {
    r.count > 0 && (r.index + 1) % WORD >= r.count
  }

  /** Whether a request is the next item of a cached batch. */
  predicate Next(r: Request, b: Batch) {
    ValidIdentity(r) && b.count == r.count && r.index > b.last && r.transfer !in b.seen
  }

  predicate Cached(batches: map<Key, Batch>, r: Request) {
    Scope(r.peer, r.batch).Some? && Scope(r.peer, r.batch).value in batches
  }

  function Forget(batches: map<Key, Batch>, r: Request): map<Key, Batch> {
    if Scope(r.peer, r.batch).Some? then batches - {Scope(r.peer, r.batch).value} else batches
  }

  function MoveOn(batches: map<Key, Batch>, r: Request): map<Key, Batch>
    requires Cached(batches, r)
  {
    var key := Scope(r.peer, r.batch).value;
    batches[key := batches[key].(last := r.index, seen := batches[key].seen + {r.transfer})]
  }

  /** The cache after a new answer: kept for the rest of the batch, if that is wanted and there
      is a rest; when the cache is full everything older is given up. */
  function Remember(batches: map<Key, Batch>, r: Request, answer: Decision): map<Key, Batch> {
    var key := Scope(r.peer, r.batch);
    if answer.all && key.Some? && !Final(r) && ValidIdentity(r) then
      var kept := if |batches| >= MAX_BATCHES then map[] else batches;
      kept[key.value := Batch(answer.action, r.count, r.index, {r.transfer})]
    else batches
  }

  /** The request is the next item of its batch, whose answer is cached. */
  predicate Reuses(batches: map<Key, Batch>, r: Request) {
    Cached(batches, r) && Next(r, batches[Scope(r.peer, r.batch).value])
  }

  /** The cache after a request. */
  function Answered(batches: map<Key, Batch>, r: Request, answer: Decision): map<Key, Batch> {
    if !Reuses(batches, r) then Remember(Forget(batches, r), r, answer)
    else if Final(r) then Forget(batches, r)
    else MoveOn(batches, r)
  }

  function AllAnswered(batches: map<Key, Batch>, rs: seq<Request>, answer: Decision): map<Key, Batch> {
    if rs == [] then batches
    else Answered(AllAnswered(batches, rs[..|rs| - 1], answer), rs[|rs| - 1], answer)
  }

  /** Valid items of one batch of one peer, in order and none twice. */
  predicate InOrder(rs: seq<Request>) {
    && (forall i :: 0 <= i < |rs| ==>
          && WellTyped(rs[i]) && |rs[i].transfer| == 16 && rs[i].index < rs[i].count == rs[0].count
          && rs[i].peer == rs[0].peer && rs[i].batch == rs[0].batch)
    && (forall i, j :: 0 <= i < j < |rs| ==> rs[i].index < rs[j].index && rs[i].transfer != rs[j].transfer)
  }

  /** One answer for all serves the rest: from a cache without the batch, the first item asks,
      and every later item in order gets the same action from the cache. */
  lemma {:induction false} OneAnswerServesAll(batches: map<Key, Batch>, rs: seq<Request>, answer: Decision, n: nat)
    requires InOrder(rs) && rs != [] && n < |rs| && answer.all
    requires Scope(rs[0].peer, rs[0].batch).Some? && !Cached(batches, rs[0])
    ensures n == 0 ==> !Reuses(AllAnswered(batches, rs[..n], answer), rs[n])
    ensures n > 0 ==>
      var cache := AllAnswered(batches, rs[..n], answer);
      Reuses(cache, rs[n]) && cache[Scope(rs[n].peer, rs[n].batch).value].action == answer.action
  {
    if n > 0 {
      CacheFollows(batches, rs, answer, n);
    }
  }

  /** A request concerns its own batch only; the others stay, or are given up together when the
      cache is full. */
  lemma AnswerIsLocal(batches: map<Key, Batch>, r: Request, answer: Decision, k: Key)
    requires Scope(r.peer, r.batch) != Some(k)
    ensures var after := Answered(batches, r, answer);
      && (k in after ==> k in batches && after[k] == batches[k])
      && (k in batches && k !in after ==>
            answer.all && !Reuses(batches, r) && |Forget(batches, r)| >= MAX_BATCHES && |after| == 1)
  {
    if answer.all && !Reuses(batches, r) && k in batches && k !in Answered(batches, r, answer) {
      var key := Scope(r.peer, r.batch).value;
      assert Answered(batches, r, answer).Keys == {key};
    }
  }

  lemma FirstIsKept(batches: map<Key, Batch>, r: Request, answer: Decision)
    requires WellTyped(r) && |r.transfer| == 16 && r.index + 1 < r.count && answer.all
    requires Scope(r.peer, r.batch).Some? && !Reuses(batches, r)
    ensures var key := Scope(r.peer, r.batch).value;
      key in Answered(batches, r, answer)
      && Answered(batches, r, answer)[key] == Batch(answer.action, r.count, r.index, {r.transfer})
  {
  }

  lemma NextIsKept(batches: map<Key, Batch>, r: Request, answer: Decision)
    requires WellTyped(r) && Reuses(batches, r) && r.index + 1 < r.count
    ensures var key := Scope(r.peer, r.batch).value;
      key in Answered(batches, r, answer)
      && Answered(batches, r, answer)[key] ==
         Batch(batches[key].action, r.count, r.index, batches[key].seen + {r.transfer})
  {
  }

  /** An item without a proper identity always asks, and nothing is remembered for its batch. */
  lemma InvalidIsForgotten(batches: map<Key, Batch>, r: Request, answer: Decision)
    requires Scope(r.peer, r.batch).Some? && (|r.transfer| != 16 || r.index >= r.count)
    ensures !Reuses(batches, r) && Scope(r.peer, r.batch).value !in Answered(batches, r, answer)
  {
  }

  /** The last item of a batch ends what is remembered of it, asked or not. */
  lemma LastIsForgotten(batches: map<Key, Batch>, r: Request, answer: Decision)
    requires WellTyped(r) && Scope(r.peer, r.batch).Some? && r.index + 1 == r.count
    ensures Scope(r.peer, r.batch).value !in Answered(batches, r, answer)
  {
  }

  lemma {:induction false} CacheFollows(batches: map<Key, Batch>, rs: seq<Request>, answer: Decision, n: nat)
    requires InOrder(rs) && 0 < n < |rs| && answer.all
    requires Scope(rs[0].peer, rs[0].batch).Some? && !Cached(batches, rs[0])
    ensures var cache, key := AllAnswered(batches, rs[..n], answer), Scope(rs[0].peer, rs[0].batch).value;
      && key in cache && cache[key].action == answer.action && cache[key].count == rs[0].count
      && cache[key].last == rs[n - 1].index
      && forall t <- cache[key].seen :: exists i :: 0 <= i < n && rs[i].transfer == t
  {
    var cache, r := AllAnswered(batches, rs[..n - 1], answer), rs[n - 1];
    assert rs[..n][..n - 1] == rs[..n - 1];
    assert r.index < rs[n].index < rs[n].count == r.count;
    if n == 1 {
      FirstIsKept(batches, r, answer);
    } else {
      CacheFollows(batches, rs, answer, n - 1);
      NextIsKept(cache, r, answer);
    }
  }

  // ---------------------------------------------------------------------------------------
  // What a reused answer rests on

  predicate Concerns(e: Entry, key: Key) {
    Scope(e.request.peer, e.request.batch) == Some(key)
  }

  /** What the log says about `key` from its latest answer on; empty if there was none. */
  ghost function Recent(log: seq<Entry>, key: Key): seq<Entry> {
    if log == [] then []
    else
      var e, before := log[|log| - 1], log[..|log| - 1];
      if !Concerns(e, key) then Recent(before, key)
      else if e.kind == Asked then [e]
      else if Recent(before, key) == [] then []
      else Recent(before, key) + [e]
  }

  /** Items of one batch in strictly increasing order, no transfer twice. */
  predicate Orderly(s: seq<Entry>) {
    && (forall i :: 0 <= i < |s| ==> s[i].request.count == s[0].request.count)
    && (forall i, j :: 0 <= i < j < |s| ==>
          s[i].request.index < s[j].request.index && s[i].request.transfer != s[j].request.transfer)
  }

  /** An answer given without asking: the latest answer for the same peer and batch was given
      for the rest of the batch, and the item comes after everything since and repeats none. */
  ghost predicate Justified(log: seq<Entry>, r: Request, action: Action) {
    Scope(r.peer, r.batch).Some?
    && var s := Recent(log, Scope(r.peer, r.batch).value);
    s != [] && s[0].kind == Asked && s[0].decision == Decision(action, true)
    && Orderly(s + [Entry(Reused, r, Decision(action, false))])
  }

  predicate Agrees(s: seq<Entry>, b: Batch) {
    && s != [] && s[0].decision == Decision(b.action, true) && s[0].request.count == b.count
    && Orderly(s) && s[|s| - 1].request.index == b.last
    && (forall i :: 0 <= i < |s| ==> s[i].request.transfer in b.seen)
    && |b.seen| <= b.last + 1
  }

  /** The cache is bounded and every batch in it says what the log says. */
  ghost predicate Sound(log: seq<Entry>, batches: map<Key, Batch>) {
    && |batches| <= MAX_BATCHES
    && (forall k :: k in batches ==> |k| == 32)
    && (forall k {:trigger Recent(log, k)} :: k in batches ==> Agrees(Recent(log, k), batches[k]))
  }

  lemma Logged(log: seq<Entry>, e: Entry, key: Key)
    ensures Recent(log + [e], key) ==
      if !Concerns(e, key) then Recent(log, key)
      else if e.kind == Asked then [e]
      else if Recent(log, key) == [] then []
      else Recent(log, key) + [e]
  {
    assert (log + [e])[..|log|] == log;
  }

  lemma {:induction false} RecentBeginsWithAnswer(log: seq<Entry>, key: Key)
    ensures var s := Recent(log, key); s != [] ==> s[0].kind == Asked
    ensures forall i :: 0 <= i < |Recent(log, key)| ==> Concerns(Recent(log, key)[i], key)
  {
    if log != [] {
      RecentBeginsWithAnswer(log[..|log| - 1], key);
    }
  }

  lemma OthersAgree(log: seq<Entry>, e: Entry, batches: map<Key, Batch>)
    requires Sound(log, batches) && forall k :: k in batches ==> !Concerns(e, k)
    ensures Sound(log + [e], batches)
  {
    forall k | k in batches ensures Recent(log + [e], k) == Recent(log, k) {
      Logged(log, e, k);
    }
  }

  lemma NextAgrees(s: seq<Entry>, e: Entry, b: Batch)
    requires Agrees(s, b) && Next(e.request, b)
    ensures Agrees(s + [e], b.(last := e.request.index, seen := b.seen + {e.request.transfer}))
  {
    var s' := s + [e];
    assert forall i :: 0 <= i < |s| ==> s[i].request.index <= s[|s| - 1].request.index;
  }

  lemma NextIsJustified(log: seq<Entry>, r: Request, b: Batch)
    requires Scope(r.peer, r.batch).Some? && Agrees(Recent(log, Scope(r.peer, r.batch).value), b) && Next(r, b)
    ensures Justified(log, r, b.action)
  {
    RecentBeginsWithAnswer(log, Scope(r.peer, r.batch).value);
    NextAgrees(Recent(log, Scope(r.peer, r.batch).value), Entry(Reused, r, Decision(b.action, false)), b);
  }

  lemma Insert(log: seq<Entry>, batches: map<Key, Batch>, key: Key, b: Batch)
    requires Sound(log, batches) && key !in batches && |batches| < MAX_BATCHES
    requires |key| == 32 && Agrees(Recent(log, key), b)
    ensures Sound(log, batches[key := b])
  {
  }

  lemma Erase(log: seq<Entry>, batches: map<Key, Batch>, keys: set<Key>)
    requires Sound(log, batches)
    ensures Sound(log, batches - keys)
  {
    LessSize(batches, keys);
  }

  lemma MovesOn(log: seq<Entry>, batches: map<Key, Batch>, key: Key, e: Entry, b: Batch)
    requires Sound(log, batches) && key in batches && Concerns(e, key) && e.kind != Asked
             && Next(e.request, batches[key])
    requires b == batches[key].(last := e.request.index, seen := batches[key].seen + {e.request.transfer})
    ensures Sound(log + [e], batches[key := b])
  {
    UpdateSize(batches, key, b);
    NextAgrees(Recent(log, key), e, batches[key]);
    Logged(log, e, key);
    forall k | k in batches && k != key ensures Recent(log + [e], k) == Recent(log, k) {
      Logged(log, e, k);
    }
  }

  lemma ScopeLength(r: Request)
    requires WellTyped(r) && Scope(r.peer, r.batch).Some?
    ensures |Scope(r.peer, r.batch).value| == 32
  {
  }

  // ---------------------------------------------------------------------------------------
  // The policy

  class Policy {
    var batches: map<Key, Batch>
    ghost var log: seq<Entry>

    ghost predicate Valid()
      reads this
    {
      Sound(log, batches)
    }

    constructor ()
      ensures Valid() && batches == map[] && log == []
    {
      batches, log := map[], [];
    }

    /** The part of `resolve` that asks; `answer` is what the callback gives, or the default. */
    method Ask(r: Request, answer: Decision)
      requires Valid() && WellTyped(r)
      requires Scope(r.peer, r.batch).Some? ==> Scope(r.peer, r.batch).value !in batches
      modifies this
      ensures Valid() && log == old(log) + [Entry(Asked, r, answer)]
      ensures batches == Remember(old(batches), r, answer)
    {
      var key := Scope(r.peer, r.batch);
      ghost var e := Entry(Asked, r, answer);
      OthersAgree(log, e, batches);
      log := log + [e];
      if answer.all && key.Some? && !Final(r) && ValidIdentity(r) {
        if |batches| >= MAX_BATCHES {
          batches := map[];
        }
        Logged(old(log), e, key.value);
        ScopeLength(r);
        var b := Batch(answer.action, r.count, r.index, {r.transfer});
        Insert(log, batches, key.value, b);
        batches := batches[key.value := b];
      }
    }

    /** `resolve`. In the branch that drops a cached batch and asks again there is always room,
        so the bound on the cache need not be looked at there. */
    method Resolve(r: Request, answer: Decision) returns (action: Action, asked: bool)
      requires Valid() && WellTyped(r)
      modifies this
      ensures Valid()
      ensures log == old(log) + [Entry(if asked then Asked else Reused, r, Decision(action, asked && answer.all))]
      ensures asked <==> !old(Reuses(batches, r))
      ensures batches == Answered(old(batches), r, answer)
      ensures action == if asked then answer.action else old(batches)[Scope(r.peer, r.batch).value].action
      ensures !asked ==> ValidIdentity(r) && Justified(old(log), r, action)
    {
      var key := Scope(r.peer, r.batch);
      if key.None? || key.value !in batches {
        Ask(r, answer);
        return answer.action, true;
      }
      var b := batches[key.value];
      if !Next(r, b) {
        Erase(log, batches, {key.value});
        batches := batches - {key.value};
        Ask(r, answer);
        return answer.action, true;
      }
      action := Reuse(r);
      return action, false;
    }

    /** The part of `resolve` that answers from the cache. */
    method Reuse(r: Request) returns (action: Action)
      requires Valid() && Cached(batches, r) && Next(r, batches[Scope(r.peer, r.batch).value])
      modifies this
      ensures Valid() && Justified(old(log), r, action)
      ensures log == old(log) + [Entry(Reused, r, Decision(action, false))]
      ensures batches == if Final(r) then Forget(old(batches), r) else MoveOn(old(batches), r)
      ensures action == old(batches)[Scope(r.peer, r.batch).value].action
    {
      var key := Scope(r.peer, r.batch).value;
      action := batches[key].action;
      NextIsJustified(log, r, batches[key]);
      Advance(r, key, Entry(Reused, r, Decision(action, false)));
      if Final(r) {
        Erase(log, batches, {key});
        batches := batches - {key};
      }
    }

    /** Records a valid next item of a cached batch. */
    method Advance(r: Request, key: Key, ghost e: Entry)
      requires Valid() && key in batches && Scope(r.peer, r.batch) == Some(key) && Next(r, batches[key])
      requires e.request == r && e.kind != Asked
      modifies this
      ensures Valid() && log == old(log) + [e] && batches == MoveOn(old(batches), r)
    {
      var b := batches[key];
      var b' := b.(last := r.index, seen := b.seen + {r.transfer});
      MovesOn(log, batches, key, e, b');
      log := log + [e];
      batches := batches[key := b'];
    }

    /** `recordNonConflict`: an item that needed no answer still counts as seen. */
    method RecordNonConflict(r: Request)
      requires Valid() && WellTyped(r)
      modifies this
      ensures Valid() && log == old(log) + [Entry(Passed, r, Decision(Rename, false))]
      ensures batches == if old(Reuses(batches, r)) then MoveOn(old(batches), r) else Forget(old(batches), r)
    {
      ghost var e := Entry(Passed, r, Decision(Rename, false));
      var key := Scope(r.peer, r.batch);
      if key.Some? && key.value in batches && Next(r, batches[key.value]) {
        Advance(r, key.value, e);
        return;
      }
      if key.Some? && key.value in batches {
        Erase(log, batches, {key.value});
        batches := batches - {key.value};
      }
      OthersAgree(log, e, batches);
      log := log + [e];
    }

    /** `completeBatch` */
    method CompleteBatch(peer: Uuid, batch: seq<byte>, count: nat)
      requires Valid()
      modifies this`batches
      ensures Valid()
      ensures var key := Scope(peer, batch);
        batches == if key.Some? && key.value in old(batches) && old(batches)[key.value].count == count
          then old(batches) - {key.value} else old(batches)
    {
      var key := Scope(peer, batch);
      if key.Some? && key.value in batches && batches[key.value].count == count {
        Erase(log, batches, {key.value});
        batches := batches - {key.value};
      }
    }

    /** `resetPeer` */
    method ResetPeer(peer: Uuid)
      requires Valid()
      modifies this`batches
      ensures Valid()
      ensures batches == if Null(peer) then old(batches) else old(batches) - Prefixed(old(batches).Keys, peer)
    {
      if Null(peer) {
        return;
      }
      Erase(log, batches, Prefixed(batches.Keys, peer));
      batches := ErasePrefixed(batches, peer);
    }

    method ResetAll()
      modifies this`batches
      ensures Valid() && batches == map[]
    {
      batches := map[];
    }
  }

  method ErasePrefixed(batches: map<Key, Batch>, peer: Uuid) returns (r: map<Key, Batch>)
    ensures r == batches - Prefixed(batches.Keys, peer)
  {
    r := EraseIf(batches, k => peer <= k);
    assert Prefixed(batches.Keys, peer) == set k | k in batches && peer <= k;
  }

  function Prefixed(keys: set<Key>, peer: Uuid): set<Key> {
    set k | k in keys && peer <= k
  }

  /** Resetting a peer removes its batches and no others. */
  lemma ResetIsExact(batches: map<Key, Batch>, peer: Uuid, p: Uuid, b: seq<byte>)
    requires |peer| == |p| && Scope(p, b).Some?
    ensures Scope(p, b).value in batches - Prefixed(batches.Keys, peer) <==> Scope(p, b).value in batches && p != peer
  {
    assert (p + b)[..|p|] == p;
  }

  /** A key belongs to one peer and one batch. */
  lemma ScopeInjective(p: Uuid, b: seq<byte>, p': Uuid, b': seq<byte>)
    requires |p| == |p'| && Scope(p, b).Some? && Scope(p, b) == Scope(p', b')
    ensures p == p' && b == b'
  {
    assert (p + b)[..|p|] == p && (p' + b')[..|p|] == p';
    assert (p + b)[|p|..] == b && (p' + b')[|p|..] == b';
  }
}
