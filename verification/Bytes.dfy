/** Bytes and the four-byte big-endian length used by the wire and recovery formats. */
module Bytes {
  type byte = x: int | 0 <= x < 256

  function FromBigEndian(b: seq<byte>): (n: nat)
    requires |b| == 4
    ensures n == b[0] as int * 0x100_0000 + b[1] as int * 0x1_0000 + b[2] as int * 0x100 + b[3]
    ensures n < 0x1_0000_0000
  {
    ((b[0] as int * 256 + b[1] as int) * 256 + b[2] as int) * 256 + b[3] as int
  }

  function ToBigEndian(n: nat): (b: seq<byte>)
    requires n < 0x1_0000_0000
    ensures |b| == 4 && FromBigEndian(b) == n
  {
    [n / 256 / 256 / 256, n / 256 / 256 % 256, n / 256 % 256, n % 256]
  }

  function Concat<T>(parts: seq<seq<T>>): seq<T> {
    if parts == [] then [] else parts[0] + Concat(parts[1..])
  }

  lemma Middle<T>(a: seq<T>, b: seq<T>, c: seq<T>)
    ensures (a + b + c)[|a|..|a| + |b|] == b
  {
  }

  /** The codes of the elements of `s`, one after the other. */
  function Flatten<A, B>(code: A -> seq<B>, s: seq<A>): seq<B> {
    if s == [] then [] else code(s[0]) + Flatten(code, s[1..])
  }

  lemma FlattenPrepend<A, B>(code: A -> seq<B>, a: A, s: seq<A>)
    ensures Flatten(code, [a] + s) == code(a) + Flatten(code, s)
  {
    assert ([a] + s)[1..] == s;
  }

  lemma FlattenExtend<A, B>(code: A -> seq<B>, a: A, s: seq<A>, b: seq<B>, n: nat)
    requires n <= |b| && code(a) == b[..n] && Flatten(code, s) == b[n..]
    ensures Flatten(code, [a] + s) == b
  {
    FlattenPrepend(code, a, s);
  }

  lemma {:induction false} FlattenAppend<A, B>(code: A -> seq<B>, s: seq<A>, t: seq<A>)
    ensures Flatten(code, s + t) == Flatten(code, s) + Flatten(code, t)
  {
    if s == [] {
      assert s + t == t;
    } else {
      FlattenAppend(code, s[1..], t);
      assert (s + t)[1..] == s[1..] + t;
    }
  }

  lemma LastDigit(x: int, y: int, a: byte, b: byte)
    requires x * 256 + a == y * 256 + b
    ensures x == y && a == b
  {
  }

  lemma BigEndianUnique(a: seq<byte>, b: seq<byte>)
    requires |a| == 4 && |b| == 4 && FromBigEndian(a) == FromBigEndian(b)
    ensures a == b
  {
    var a2: int, b2: int := a[0] as int * 256 + a[1], b[0] as int * 256 + b[1];
    LastDigit(a2 * 256 + a[2], b2 * 256 + b[2], a[3], b[3]);
    LastDigit(a2, b2, a[2], b[2]);
    LastDigit(a[0], b[0], a[1], b[1]);
  }
}
