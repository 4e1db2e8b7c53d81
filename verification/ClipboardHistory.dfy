/**
  The bounded clipboard history: newest entry first, pinned entries exempt from expiry and
  eviction, and limits on the number of entries and on their bytes. Clock readings are
  parameters; wiping the memory of removed entries is not part of this model.
*/
module ClipboardHistory {

  datatype Content = Text(text: string) | Image(png: seq<int>)

  datatype Entry = Entry(content: Content, capturedAt: int, pinned: bool, size: int)

  datatype Limits = Limits(maxItems: int, maxItemBytes: int, maxTotalBytes: int, expiry: int)

  // ---------------------------------------------------------------------------------------
  // What the list means

  function Total(s: seq<Entry>): int {
    if s == [] then 0 else s[0].size + Total(s[1..])
  }

  function Unpinned(s: seq<Entry>): nat {
    if s == [] then 0 else (if s[0].pinned then 0 else 1) + Unpinned(s[1..])
  }

  /** The pinned entries in their order, apart from the time of capture, which adding the
      content of the latest entry again renews. */
  function Pins(s: seq<Entry>): seq<Entry> {
    if s == [] then [] else if s[0].pinned then [s[0].(capturedAt := 0)] + Pins(s[1..]) else Pins(s[1..])
  }

  predicate Expired(limits: Limits, e: Entry, now: int) {
    0 <= limits.expiry && !e.pinned && now - e.capturedAt >= limits.expiry
  }

  function Live(limits: Limits, s: seq<Entry>, now: int): seq<Entry> {
    if s == [] then []
    else if Expired(limits, s[0], now) then Live(limits, s[1..], now)
    else [s[0]] + Live(limits, s[1..], now)
  }

  /** `s` without its `k` oldest unpinned entries: an unpinned entry stays when at least `k`
      unpinned ones are older. */
  function Keep(s: seq<Entry>, k: nat): seq<Entry> {
    if s == [] then []
    else if s[0].pinned || Unpinned(s[1..]) >= k then [s[0]] + Keep(s[1..], k)
    else Keep(s[1..], k)
  }

  function PinnedOnly(s: seq<Entry>): seq<Entry> {
    if s == [] then [] else if s[0].pinned then [s[0]] + PinnedOnly(s[1..]) else PinnedOnly(s[1..])
  }

  predicate Fits(limits: Limits, s: seq<Entry>, size: int) {
    |s| < limits.maxItems && Total(s) + size <= limits.maxTotalBytes
  }

  predicate Admissible(limits: Limits, size: int) {
    0 < size <= limits.maxItemBytes && size <= limits.maxTotalBytes && 0 < limits.maxItems
  }

  predicate WithinLimits(limits: Limits, s: seq<Entry>) {
    (s != [] ==> |s| <= limits.maxItems && Total(s) <= limits.maxTotalBytes)
    && forall i :: 0 <= i < |s| ==> 0 < s[i].size <= limits.maxItemBytes
  }

  /** The fewest evictions after which an entry of `size` bytes fits. */
  predicate Fewest(limits: Limits, s: seq<Entry>, size: int, k: nat) {
    Fits(limits, Keep(s, k), size)
    && forall j :: 0 <= j < k ==> !Fits(limits, Keep(s, j), size)
  }

  /** What adding an entry may do to the list. */
  ghost predicate AddEffect(limits: Limits, before: seq<Entry>, candidate: Entry, now: int, ok: bool,
                            after: seq<Entry>) {
    var live := Live(limits, before, now);
    if !Admissible(limits, candidate.size) then
      !ok && after == live
    else if live != [] && live[0].content == candidate.content then
      ok && after == [live[0].(capturedAt := candidate.capturedAt)] + live[1..]
    else if Fits(limits, PinnedOnly(live), candidate.size) then
      ok && exists k :: Fewest(limits, live, candidate.size, k) && after == [candidate] + Keep(live, k)
    else
      !ok && after == PinnedOnly(live)
  }

  // ---------------------------------------------------------------------------------------
  // The history

  class History {
    const limits: Limits
    var entries: seq<Entry>
    var totalBytes: int

    ghost predicate Valid()
      reads this
    {
      totalBytes == Total(entries) && WithinLimits(limits, entries)
    }

    constructor (limits: Limits)
      ensures Valid() && this.limits == limits && entries == []
    {
      this.limits := limits;
      entries, totalBytes := [], 0;
    }

    method RemoveRow(row: nat)
      requires row < |entries| && Valid()
      modifies this
      ensures Valid() && entries == Without(old(entries), row)
    {
      RemoveOne(entries, row);
      totalBytes := totalBytes - entries[row].size;
      entries := entries[..row] + entries[row + 1..];
    }

    method Expire(now: int)
      requires Valid()
      modifies this
      ensures Valid() && entries == Live(limits, old(entries), now)
    {
      if limits.expiry < 0 {
        NothingExpires(limits, entries, now);
        return;
      }
      var i := |entries|;
      while i > 0
        invariant 0 <= i <= |old(entries)| && Valid()
        invariant entries == old(entries)[..i] + Live(limits, old(entries)[i..], now)
      {
        i := i - 1;
        ghost var was := old(entries);
        assert was[i..][1..] == was[i + 1..] && was[i..][0] == was[i];
        assert entries[i] == was[i];
        if !entries[i].pinned && now - entries[i].capturedAt >= limits.expiry {
          RemoveRow(i);
        }
      }
    }

    method AddEntry(candidate: Entry, now: int) returns (ok: bool)
      requires Valid()
      modifies this
      ensures Valid()
      ensures AddEffect(limits, old(entries), candidate, now, ok, entries)
    {
      Expire(now);
      if candidate.size <= 0 || candidate.size > limits.maxItemBytes
        || candidate.size > limits.maxTotalBytes || limits.maxItems <= 0 {
        return false;
      }
      ghost var live := entries;
      if entries != [] && entries[0].content == candidate.content {
        entries := [entries[0].(capturedAt := candidate.capturedAt)] + entries[1..];
        return true;
      }
      ghost var k;
      ok, k := MakeRoom(candidate.size);
      if ok {
        Cons(candidate, entries);
        KeepLess(live, k);
        totalBytes := totalBytes + candidate.size;
        entries := [candidate] + entries;
      }
    }

    /** The eviction loop of `addEntry`. */
    method MakeRoom(size: int) returns (ok: bool, ghost k: nat)
      requires Valid() && Admissible(limits, size)
      modifies this
      ensures Valid()
      ensures ok ==> Fewest(limits, old(entries), size, k) && entries == Keep(old(entries), k)
      ensures !ok ==> !Fits(limits, entries, size) && entries == PinnedOnly(old(entries))
    {
      k := 0;
      KeepNone(entries);
      while |entries| >= limits.maxItems || totalBytes + size > limits.maxTotalBytes
        invariant Valid() && entries == Keep(old(entries), k)
        invariant forall j :: 0 <= j < k ==> !Fits(limits, Keep(old(entries), j), size)
        decreases |entries|
      {
        var victim := LastUnpinned();
        if victim < 0 {
          AllPinned(entries);
          KeepCounts(old(entries), k);
          KeepAll(old(entries), k);
          return false, k;
        }
        KeepNext(old(entries), k, victim);
        RemoveRow(victim);
        k := k + 1;
      }
      return true, k;
    }

    /** The inner loop of `addEntry`: the oldest unpinned row, or -1. */
    method LastUnpinned() returns (victim: int)
      ensures -1 <= victim < |entries|
      ensures victim >= 0 ==> !entries[victim].pinned
      ensures forall i :: victim < i < |entries| ==> entries[i].pinned
    {
      victim := |entries| - 1;
      while victim >= 0
        invariant -1 <= victim < |entries|
        invariant forall i :: victim < i < |entries| ==> entries[i].pinned
      {
        if !entries[victim].pinned {
          return;
        }
        victim := victim - 1;
      }
    }

    method SetPinned(row: int, pinned: bool) returns (ok: bool)
      requires Valid()
      modifies this
      ensures Valid() && ok == (0 <= row < |old(entries)|)
      ensures entries == if ok then old(entries)[row := old(entries)[row].(pinned := pinned)] else old(entries)
    {
      if row < 0 || row >= |entries| {
        return false;
      }
      SameSizes(entries, entries[row := entries[row].(pinned := pinned)]);
      entries := entries[row := entries[row].(pinned := pinned)];
      return true;
    }

    method Clear()
      requires Valid()
      modifies this
      ensures Valid() && entries == []
    {
      entries, totalBytes := [], 0;
    }
  }

  // ---------------------------------------------------------------------------------------
  // The list functions

  lemma {:induction false} TotalAppend(s: seq<Entry>, t: seq<Entry>)
    ensures Total(s + t) == Total(s) + Total(t)
  {
    if s == [] {
      assert s + t == t;
    } else {
      TotalAppend(s[1..], t);
      assert (s + t)[1..] == s[1..] + t;
    }
  }

  lemma RemoveOne(s: seq<Entry>, row: nat)
    requires row < |s|
    ensures Total(s[..row] + s[row + 1..]) == Total(s) - s[row].size
  {
    TotalAppend(s[..row], s[row + 1..]);
    TotalAppend(s[..row], s[row..]);
    assert s[..row] + s[row..] == s;
  }

  lemma {:induction false} SameSizes(s: seq<Entry>, t: seq<Entry>)
    requires |s| == |t| && forall i :: 0 <= i < |s| ==> s[i].size == t[i].size
    ensures Total(s) == Total(t)
  {
    if s != [] {
      SameSizes(s[1..], t[1..]);
    }
  }

  lemma {:induction false} NothingExpires(limits: Limits, s: seq<Entry>, now: int)
    requires limits.expiry < 0
    ensures Live(limits, s, now) == s
  {
    if s != [] {
      NothingExpires(limits, s[1..], now);
    }
  }

  lemma {:induction false} KeepNone(s: seq<Entry>)
    ensures Keep(s, 0) == s
  {
    if s != [] {
      KeepNone(s[1..]);
    }
  }

  lemma Cons(x: Entry, s: seq<Entry>)
    ensures Total([x] + s) == x.size + Total(s)
    ensures Unpinned([x] + s) == (if x.pinned then 0 else 1) + Unpinned(s)
    ensures Pins([x] + s) == if x.pinned then [x.(capturedAt := 0)] + Pins(s) else Pins(s)
  {
    assert ([x] + s)[1..] == s;
  }

  lemma {:induction false} AllPinned(s: seq<Entry>)
    ensures Unpinned(s) == 0 <==> forall i :: 0 <= i < |s| ==> s[i].pinned
  {
    if s != [] {
      AllPinned(s[1..]);
      assert forall i :: 1 <= i < |s| ==> s[i] == s[1..][i - 1];
    }
  }

  /** Evicting takes away exactly `k` unpinned entries while there are so many. */
  lemma {:induction false} KeepCounts(s: seq<Entry>, k: nat)
    ensures k <= Unpinned(s) ==> Unpinned(Keep(s, k)) == Unpinned(s) - k && |Keep(s, k)| == |s| - k
    ensures k >= Unpinned(s) ==> Unpinned(Keep(s, k)) == 0 && |Keep(s, k)| == |s| - Unpinned(s)
  {
    if s != [] {
      KeepCounts(s[1..], k);
      Cons(s[0], Keep(s[1..], k));
    }
  }

  lemma {:induction false} KeepAll(s: seq<Entry>, k: nat)
    ensures k >= Unpinned(s) ==> Keep(s, k) == PinnedOnly(s)
  {
    if s != [] {
      KeepAll(s[1..], k);
    }
  }

  function Without(s: seq<Entry>, row: nat): seq<Entry>
    requires row < |s|
  {
    s[..row] + s[row + 1..]
  }

  /** Row `victim` is unpinned and everything older is pinned. */
  predicate Oldest(s: seq<Entry>, victim: nat) {
    victim < |s| && !s[victim].pinned && forall i :: victim < i < |s| ==> s[i].pinned
  }

  lemma OldestCons(x: Entry, s: seq<Entry>, victim: nat)
    requires Oldest([x] + s, victim)
    ensures victim == 0 ==> Unpinned(s) == 0 && Without([x] + s, 0) == s
    ensures victim > 0 ==>
              Oldest(s, victim - 1) && Unpinned(s) > 0 && Without([x] + s, victim) == [x] + Without(s, victim - 1)
  {
    AllPinned(s);
    assert forall i :: 0 <= i < |s| ==> s[i] == ([x] + s)[i + 1];
  }

  /** Removing the last unpinned row evicts one entry more. */
  lemma {:induction false} KeepNext(s: seq<Entry>, k: nat, victim: nat)
    requires Oldest(Keep(s, k), victim)
    ensures Without(Keep(s, k), victim) == Keep(s, k + 1)
  {
    var tail := Keep(s[1..], k);
    KeepCounts(s[1..], k);
    if s[0].pinned || Unpinned(s[1..]) >= k {
      OldestCons(s[0], tail, victim);
      if victim == 0 {
        KeepAll(s[1..], k);
        KeepAll(s[1..], k + 1);
      } else {
        KeepNext(s[1..], k, victim - 1);
      }
    } else {
      AllPinned(tail);
    }
  }

  lemma {:induction false} KeepLess(s: seq<Entry>, k: nat)
    requires forall i :: 0 <= i < |s| ==> s[i].size > 0
    ensures |PinnedOnly(s)| <= |Keep(s, k)| && Total(PinnedOnly(s)) <= Total(Keep(s, k))
  {
    if s != [] {
      KeepLess(s[1..], k);
      Cons(s[0], Keep(s[1..], k));
      Cons(s[0], PinnedOnly(s[1..]));
    }
  }

  /** Expiry removes exactly the unpinned entries whose time is up, when there is an expiry. */
  lemma {:induction false} LiveMeans(limits: Limits, s: seq<Entry>, now: int, e: Entry)
    ensures multiset(Live(limits, s, now))[e] ==
      if e.pinned || limits.expiry < 0 || now < e.capturedAt + limits.expiry then multiset(s)[e] else 0
  {
    if s != [] {
      LiveMeans(limits, s[1..], now, e);
      assert s == [s[0]] + s[1..];
    }
  }

  /** With `k` evictions there is no room for `size` bytes more. */
  predicate Crowded(limits: Limits, s: seq<Entry>, size: int, k: nat) {
    |Keep(s, k)| + 1 > limits.maxItems || Total(Keep(s, k)) + size > limits.maxTotalBytes
  }

  /** What an addition answers and leaves, in numbers: it succeeds if and only if the sizes are
      acceptable and the content is the latest or fits beside the pinned entries, and then the
      content comes first; where there is room nothing is evicted, and otherwise one eviction
      less would not do. */
  lemma AddMeans(limits: Limits, before: seq<Entry>, candidate: Entry, now: int, ok: bool, after: seq<Entry>)
    requires AddEffect(limits, before, candidate, now, ok, after)
    ensures var live, size := Live(limits, before, now), candidate.size;
      var again := live != [] && live[0].content == candidate.content;
      var pinned := PinnedOnly(live);
      && (ok <==> 0 < size <= limits.maxItemBytes && size <= limits.maxTotalBytes && limits.maxItems > 0
                  && (again || (|pinned| + 1 <= limits.maxItems && Total(pinned) + size <= limits.maxTotalBytes)))
      && (ok ==> after != [] && after[0].content == candidate.content && after[0].capturedAt == candidate.capturedAt)
      && (ok && again ==> |after| == |live| && after[1..] == live[1..] && after[0].pinned == live[0].pinned)
      && (ok && !again ==> after[0] == candidate)
      && (ok && !again && |live| + 1 <= limits.maxItems && Total(live) + size <= limits.maxTotalBytes ==>
            after == [candidate] + live)
      && (ok && !again && after != [candidate] + live ==>
            exists k: nat :: Crowded(limits, live, size, k) && after == [candidate] + Keep(live, k + 1))
  {
    var live := Live(limits, before, now);
    KeepNone(live);
    if ok && !(live != [] && live[0].content == candidate.content) {
      var k: nat :| Fewest(limits, live, candidate.size, k) && after == [candidate] + Keep(live, k);
      if k > 0 {
        var less: nat := k - 1;
        assert !Fits(limits, Keep(live, 0), candidate.size);
        assert !Fits(limits, Keep(live, less), candidate.size);
        assert Crowded(limits, live, candidate.size, less) && after == [candidate] + Keep(live, less + 1);
      }
    }
  }

  // ---------------------------------------------------------------------------------------
  // Whole runs

  lemma {:induction false} LiveKeepsPins(limits: Limits, s: seq<Entry>, now: int)
    ensures Pins(Live(limits, s, now)) == Pins(s)
  {
    if s != [] {
      LiveKeepsPins(limits, s[1..], now);
      Cons(s[0], Live(limits, s[1..], now));
    }
  }

  lemma {:induction false} KeepKeepsPins(s: seq<Entry>, k: nat)
    ensures Pins(Keep(s, k)) == Pins(s) && Pins(PinnedOnly(s)) == Pins(s)
  {
    if s != [] {
      KeepKeepsPins(s[1..], k);
      Cons(s[0], Keep(s[1..], k));
      Cons(s[0], PinnedOnly(s[1..]));
    }
  }

  /** Adding never removes or reorders a pinned entry, whether it succeeds or not. */
  lemma AddKeepsPins(limits: Limits, before: seq<Entry>, candidate: Entry, now: int, ok: bool, after: seq<Entry>)
    requires AddEffect(limits, before, candidate, now, ok, after) && !candidate.pinned
    ensures Pins(after) == Pins(before)
  {
    var live := Live(limits, before, now);
    LiveKeepsPins(limits, before, now);
    KeepKeepsPins(live, 0);
    if Admissible(limits, candidate.size) {
      if live != [] && live[0].content == candidate.content {
        Cons(live[0].(capturedAt := candidate.capturedAt), live[1..]);
      } else if ok {
        var k :| Fewest(limits, live, candidate.size, k) && after == [candidate] + Keep(live, k);
        KeepKeepsPins(live, k);
        Cons(candidate, Keep(live, k));
      }
    }
  }

  /** The outcome of an addition is determined, so the evictions are the fewest. */
  lemma AddIsDetermined(limits: Limits, before: seq<Entry>, candidate: Entry, now: int,
                        ok: bool, after: seq<Entry>, ok': bool, after': seq<Entry>)
    requires AddEffect(limits, before, candidate, now, ok, after)
    requires AddEffect(limits, before, candidate, now, ok', after')
    ensures ok == ok' && after == after'
  {
    var live := Live(limits, before, now);
    if Admissible(limits, candidate.size) && !(live != [] && live[0].content == candidate.content)
      && Fits(limits, PinnedOnly(live), candidate.size) {
      var k :| Fewest(limits, live, candidate.size, k) && after == [candidate] + Keep(live, k);
      var k' :| Fewest(limits, live, candidate.size, k') && after' == [candidate] + Keep(live, k');
      assert k == k';
    }
  }

  datatype Operation =
    | Add(candidate: Entry, now: int)
    | Expire(now: int)
    | SetPinned(row: int, pinned: bool)
    | Clear

  /** What one call to the history does, as its methods' contracts say. */
  ghost predicate Next(limits: Limits, before: seq<Entry>, op: Operation, after: seq<Entry>) {
    match op
    case Add(candidate, now) => exists ok :: AddEffect(limits, before, candidate, now, ok, after)
    case Expire(now) => after == Live(limits, before, now)
    case SetPinned(row, pinned) =>
      after == if 0 <= row < |before| then before[row := before[row].(pinned := pinned)] else before
    case Clear => after == []
  }

  ghost predicate Trace(limits: Limits, states: seq<seq<Entry>>, ops: seq<Operation>) {
    |states| == |ops| + 1
    && forall i :: 0 <= i < |ops| ==> Next(limits, states[i], ops[i], states[i + 1])
  }

  /** While nothing is pinned, unpinned or cleared by hand, the pinned entries stay as they are. */
  lemma {:induction false} PinsSurvive(limits: Limits, states: seq<seq<Entry>>, ops: seq<Operation>)
    requires Trace(limits, states, ops)
    requires forall i :: 0 <= i < |ops| ==> ops[i].Expire? || (ops[i].Add? && !ops[i].candidate.pinned)
    ensures Pins(states[|ops|]) == Pins(states[0])
  {
    if ops != [] {
      var n := |ops| - 1;
      PinsSurvive(limits, states[..n + 1], ops[..n]);
      var op := ops[n];
      assert Next(limits, states[n], op, states[n + 1]);
      if op.Add? {
        var ok :| AddEffect(limits, states[n], op.candidate, op.now, ok, states[n + 1]);
        AddKeepsPins(limits, states[n], op.candidate, op.now, ok, states[n + 1]);
      } else {
        LiveKeepsPins(limits, states[n], op.now);
      }
    }
  }

  lemma {:induction false} LiveWithin(limits: Limits, s: seq<Entry>, now: int)
    requires forall i :: 0 <= i < |s| ==> 0 < s[i].size <= limits.maxItemBytes
    ensures var live := Live(limits, s, now);
      |live| <= |s| && Total(live) <= Total(s)
      && forall i :: 0 <= i < |live| ==> 0 < live[i].size <= limits.maxItemBytes
  {
    if s != [] {
      LiveWithin(limits, s[1..], now);
      Cons(s[0], Live(limits, s[1..], now));
    }
  }

  lemma {:induction false} KeepWithin(limits: Limits, s: seq<Entry>, k: nat)
    requires forall i :: 0 <= i < |s| ==> 0 < s[i].size <= limits.maxItemBytes
    ensures var kept := Keep(s, k);
      |kept| <= |s| && Total(kept) <= Total(s)
      && forall i :: 0 <= i < |kept| ==> 0 < kept[i].size <= limits.maxItemBytes
  {
    if s != [] {
      KeepWithin(limits, s[1..], k);
      Cons(s[0], Keep(s[1..], k));
    }
  }

  lemma NextWithin(limits: Limits, before: seq<Entry>, op: Operation, after: seq<Entry>)
    requires WithinLimits(limits, before) && Next(limits, before, op, after)
    ensures WithinLimits(limits, after)
  {
    match op
    case Add(candidate, now) =>
      var ok :| AddEffect(limits, before, candidate, now, ok, after);
      var live := Live(limits, before, now);
      LiveWithin(limits, before, now);
      KeepWithin(limits, live, Unpinned(live));
      KeepAll(live, Unpinned(live));
      if Admissible(limits, candidate.size) {
        if live != [] && live[0].content == candidate.content {
          SameSizes(live, after);
        } else if ok {
          var k :| Fewest(limits, live, candidate.size, k) && after == [candidate] + Keep(live, k);
          KeepWithin(limits, live, k);
          Cons(candidate, Keep(live, k));
        }
      }
    case Expire(now) => LiveWithin(limits, before, now);
    case SetPinned(row, pinned) => SameSizes(before, after);
    case Clear =>
  }

  /** Every list a run from the empty history reaches is within all limits. */
  lemma {:induction false} RunsStayWithinLimits(limits: Limits, states: seq<seq<Entry>>, ops: seq<Operation>)
    requires Trace(limits, states, ops) && states[0] == []
    ensures WithinLimits(limits, states[|ops|])
  {
    if ops != [] {
      var n := |ops| - 1;
      RunsStayWithinLimits(limits, states[..n + 1], ops[..n]);
      NextWithin(limits, states[n], ops[n], states[n + 1]);
    }
  }
}
