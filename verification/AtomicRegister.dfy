/** The reference for the crash-safe transactions: a register that takes each write whole or not at all. */
module AtomicRegister {
  import opened Crash

  /** What the register holds after `writes`, of which exactly those marked in `took` took place. */
  ghost function Register<C>(initial: C, writes: seq<Option<C>>, took: seq<bool>): C
    requires |took| == |writes|
  {
    if writes == [] then initial
    else
      var last := |writes| - 1;
      if took[last] && writes[last].Some? then writes[last].value
      else Register(initial, writes[..last], took[..last])
  }

  /** Every step keeps the value or installs the value written in that step. */
  ghost predicate Steps<C>(held: seq<C>, writes: seq<Option<C>>) {
    && |held| == |writes| + 1
    && forall i :: 0 <= i < |writes| ==> held[i + 1] == held[i] || writes[i] == Some(held[i + 1])
  }

  /** Such a history is that of a register, with every confirmed write in it and no denied one. */
  lemma Linearize<C>(held: seq<C>, writes: seq<Option<C>>, confirmed: set<nat>, denied: set<nat>)
      returns (took: seq<bool>)
    requires Steps(held, writes) && confirmed !! denied
    requires forall i <- confirmed :: i < |writes| && writes[i] == Some(held[i + 1])
    requires forall i <- denied :: i < |writes| && held[i + 1] == held[i]
    ensures |took| == |writes|
    ensures forall i <- confirmed :: took[i]
    ensures forall i <- denied :: !took[i]
    ensures forall j :: 0 <= j <= |writes| ==> held[j] == Register(held[0], writes[..j], took[..j])
  {
    took := seq(|writes|, i requires 0 <= i < |writes| => i !in denied && writes[i] == Some(held[i + 1]));
    forall j | 0 <= j <= |writes|
      ensures held[j] == Register(held[0], writes[..j], took[..j])
    {
      Follows(held, writes, took, j);
    }
  }

  lemma {:induction false} Follows<C>(held: seq<C>, writes: seq<Option<C>>, took: seq<bool>, j: nat)
    requires |held| == |writes| + 1 && |took| == |writes| && j <= |writes|
    requires forall i :: 0 <= i < |writes| ==>
              if took[i] then writes[i] == Some(held[i + 1]) else held[i + 1] == held[i]
    ensures held[j] == Register(held[0], writes[..j], took[..j])
  {
    if j > 0 {
      Follows(held, writes, took, j - 1);
      assert writes[..j][..j - 1] == writes[..j - 1] && took[..j][..j - 1] == took[..j - 1];
    }
  }

  /** The register under changes: it takes each change whole or not at all. */
  ghost function Applied<C>(initial: C, changes: seq<C -> C>, took: seq<bool>): C
    requires |took| == |changes|
  {
    if changes == [] then initial
    else
      var last := |changes| - 1;
      var before := Applied(initial, changes[..last], took[..last]);
      if took[last] then changes[last](before) else before
  }

  /** Where a value comes from: which of two copies, and with the change or without it. */
  datatype Origin = Origin(second: bool, took: bool)

  ghost function Came<C>(o: Origin, first: C, second: C, change: C -> C): C {
    var base := if o.second then second else first;
    if o.took then change(base) else base
  }

  ghost predicate Chained<C>(first: seq<C>, second: seq<C>, changes: seq<C -> C>, a: seq<Origin>, b: seq<Origin>) {
    && |first| == |second| == |changes| + 1 && |a| == |b| == |changes| && first[0] == second[0]
    && forall i :: 0 <= i < |changes| ==>
                     first[i + 1] == Came(a[i], first[i], second[i], changes[i])
                     && second[i + 1] == Came(b[i], first[i], second[i], changes[i])
  }

  lemma AppliedOneMore<C>(initial: C, changes: seq<C -> C>, took: seq<bool>, change: C -> C, step: bool)
    requires |took| == |changes|
    ensures Applied(initial, changes + [change], took + [step]) ==
            var before := Applied(initial, changes, took); if step then change(before) else before
  {
    assert (changes + [change])[..|changes|] == changes && (took + [step])[..|took|] == took;
  }

  /** Two copies that overwrite each other and take changes both stand, at the end, for the
      content of a register. A change that both took is in both accounts, one that neither
      took in neither. */
  lemma {:induction false} TwoCopies<C>(first: seq<C>, second: seq<C>, changes: seq<C -> C>, a: seq<Origin>,
                                        b: seq<Origin>)
      returns (tookFirst: seq<bool>, tookSecond: seq<bool>)
    requires Chained(first, second, changes, a, b)
    ensures |tookFirst| == |tookSecond| == |changes|
    ensures first[|changes|] == Applied(first[0], changes, tookFirst)
    ensures second[|changes|] == Applied(first[0], changes, tookSecond)
    ensures forall k :: 0 <= k < |changes| ==>
                          (a[k].took && b[k].took ==> tookFirst[k] && tookSecond[k])
                          && (!a[k].took && !b[k].took ==> !tookFirst[k] && !tookSecond[k])
  {
    if changes == [] {
      tookFirst, tookSecond := [], [];
    } else {
      var n := |changes| - 1;
      var f, s := TwoCopies(first[..n + 1], second[..n + 1], changes[..n], a[..n], b[..n]);
      tookFirst := (if a[n].second then s else f) + [a[n].took];
      tookSecond := (if b[n].second then s else f) + [b[n].took];
      assert changes == changes[..n] + [changes[n]];
      AppliedOneMore(first[0], changes[..n], if a[n].second then s else f, changes[n], a[n].took);
      AppliedOneMore(first[0], changes[..n], if b[n].second then s else f, changes[n], b[n].took);
    }
  }

  /** One copy is accounted for at every point by one choice. */
  lemma {:induction false} OneCopy<C>(held: seq<C>, changes: seq<C -> C>, took: seq<bool>, j: nat)
    requires |held| == |changes| + 1 && |took| == |changes| && j <= |changes|
    requires forall i :: 0 <= i < |changes| ==> held[i + 1] == if took[i] then changes[i](held[i]) else held[i]
    ensures held[j] == Applied(held[0], changes[..j], took[..j])
  {
    if j > 0 {
      OneCopy(held, changes, took, j - 1);
      assert changes[..j] == changes[..j - 1] + [changes[j - 1]] && took[..j] == took[..j - 1] + [took[j - 1]];
      AppliedOneMore(held[0], changes[..j - 1], took[..j - 1], changes[j - 1], took[j - 1]);
    }
  }
}
