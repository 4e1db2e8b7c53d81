/**
  Section 3 of RFC 3629: the encoding of Unicode scalar values as one to four bytes, and the
  validator that the pairing code of an imported package goes through.
*/
module Utf8 {
  import opened Bytes

  /** A Unicode code point that is not a surrogate. */
  type Scalar = x: int | 0 <= x < 0xD800 || 0xE000 <= x <= 0x10FFFF

  type Text = seq<Scalar>

  /** How many continuation bytes a scalar value takes. */
  function Extra(c: Scalar): (k: nat)
    ensures k <= 3
  {
    if c < 0x80 then 0 else if c < 0x800 then 1 else if c < 0x10000 then 2 else 3
  }

  /** What is left of `c` for the lead byte after `k` groups of six bits. */
  function High(c: nat, k: nat): nat {
    if k == 0 then c else High(c / 64, k - 1)
  }

  /** The `k` lowest groups of six bits of `c`, each in a continuation byte. */
  function Low(c: nat, k: nat): (b: seq<byte>)
    ensures |b| == k && forall i :: 0 <= i < k ==> Continuation(b[i])
  {
    if k == 0 then [] else Low(c / 64, k - 1) + [0x80 + c % 64]
  }

  function Code(c: Scalar): (b: seq<byte>)
    ensures 1 <= |b| <= 4
  {
    var k := Extra(c);
    HighFits(c);
    [if k == 0 then c
     else if k == 1 then 0xC0 + High(c, 1)
     else if k == 2 then 0xE0 + High(c, 2)
     else 0xF0 + High(c, 3)]
    + Low(c, k)
  }

  lemma HighFits(c: Scalar)
    ensures High(c, 0) == c
    ensures Extra(c) == 1 ==> 2 <= High(c, 1) < 32
    ensures Extra(c) == 2 ==> High(c, 2) < 16
    ensures Extra(c) == 3 ==> High(c, 3) <= 4
  {
    assert High(c, 1) == High(c / 64, 0) == c / 64;
    assert High(c, 2) == High(c / 64, 1) == High(c / 64 / 64, 0);
    assert High(c, 3) == High(c / 64, 2) == High(c / 64 / 64, 1) == High(c / 64 / 64 / 64, 0);
  }

  function Encode(text: Text): (b: seq<byte>) {
    Flatten(Code, text)
  }

  ghost predicate Valid(b: seq<byte>) {
    exists text: Text :: Encode(text) == b
  }

  /** How many bytes a sequence has that begins with `first`; 0 if none begins so. */
  function Length(first: byte): (n: nat)
    ensures n <= 4
  {
    if first <= 0x7F then 1
    else if 0xC2 <= first <= 0xDF then 2
    else if 0xE0 <= first <= 0xEF then 3
    else if 0xF0 <= first <= 0xF4 then 4
    else 0
  }

  /** The payload bits of a lead byte with `n` bytes in its sequence. */
  function Lead(first: byte, n: nat): int {
    if n == 1 then first else if n == 2 then first % 32 else if n == 3 then first % 16 else first % 8
  }

  predicate Continuation(b: byte) {
    0x80 <= b < 0xC0
  }

  /** Lead bits followed by six bits of each continuation byte. */
  function Bits(lead: int, rest: seq<byte>): int {
    if rest == [] then lead else Bits(lead, rest[..|rest| - 1]) * 64 + rest[|rest| - 1] % 64
  }

  function Point(b: seq<byte>): int
    requires b != []
  {
    Bits(Lead(b[0], |b|), b[1..])
  }

  /** Whether `b` begins with the encoding of a scalar value, judged as the validator does. */
  predicate Front(b: seq<byte>)
    requires b != []
  {
    var n := Length(b[0]);
    1 <= n <= |b|
    && (forall k :: 1 <= k < n ==> Continuation(b[k]))
    && Minimum(n) <= Point(b[..n]) <= 0x10FFFF
    && !(0xD800 <= Point(b[..n]) <= 0xDFFF)
  }

  function Minimum(n: nat): nat {
    if n == 4 then 0x10000 else if n == 3 then 0x800 else if n == 2 then 0x80 else 0
  }

  lemma SixBits(c: nat)
    ensures (0x80 + c % 64) % 64 == c % 64 && c / 64 * 64 + c % 64 == c
  {
  }

  /** Lead bits and groups of six bits put together give the value they were cut from. */
  lemma {:induction false} Assemble(c: nat, k: nat)
    ensures Bits(High(c, k), Low(c, k)) == c
  {
    if k > 0 {
      Assemble(c / 64, k - 1);
      SixBits(c);
      assert Low(c, k)[..k - 1] == Low(c / 64, k - 1);
    }
  }

  /** The value put together from lead bits and continuation bytes is cut into them again. */
  lemma {:induction false} Disassemble(lead: nat, rest: seq<byte>)
    requires forall i :: 0 <= i < |rest| ==> Continuation(rest[i])
    ensures var c := Bits(lead, rest); c >= lead && High(c, |rest|) == lead && Low(c, |rest|) == rest
  {
    if rest != [] {
      var front := rest[..|rest| - 1];
      Disassemble(lead, front);
      Digits(Bits(lead, front), rest[|rest| - 1]);
      assert rest == front + [rest[|rest| - 1]];
    }
  }

  lemma Digits(high: int, low: byte)
    requires 0 <= high && Continuation(low)
    ensures (high * 64 + low % 64) / 64 == high
    ensures 0x80 + (high * 64 + low % 64) % 64 == low
  {
  }

  /** The lead byte of a scalar value tells its length and carries its high bits. */
  lemma LeadByte(c: Scalar)
    ensures var first := Code(c)[0]; Length(first) == Extra(c) + 1 && Lead(first, Extra(c) + 1) == High(c, Extra(c))
  {
    HighFits(c);
  }

  /** A scalar value's own bytes are a lead byte and continuation bytes that mean that value. */
  lemma CodeMeans(c: Scalar)
    ensures |Code(c)| == Extra(c) + 1 == Length(Code(c)[0]) && Point(Code(c)) == c
    ensures forall i :: 1 <= i < |Code(c)| ==> Continuation(Code(c)[i])
  {
    LeadByte(c);
    Assemble(c, Extra(c));
    assert Code(c)[1..] == Low(c, Extra(c));
    assert forall i :: 1 <= i < |Code(c)| ==> Code(c)[i] == Low(c, Extra(c))[i - 1];
  }

  /** The same bytes at the front of others. */
  lemma CodeInFront(c: Scalar, rest: seq<byte>)
    ensures var b := Code(c) + rest; b[0] == Code(c)[0] && b[..|Code(c)|] == Code(c)
    ensures forall i :: 0 <= i < |Code(c)| ==> (Code(c) + rest)[i] == Code(c)[i]
  {
  }

  lemma CodeContinues(c: Scalar, rest: seq<byte>)
    ensures forall i :: 1 <= i < |Code(c)| ==> Continuation((Code(c) + rest)[i])
  {
    CodeMeans(c);
    CodeInFront(c, rest);
    forall i | 1 <= i < |Code(c)|
      ensures Continuation((Code(c) + rest)[i])
    {
      assert Continuation(Code(c)[i]);
    }
  }

  lemma ExtraFits(c: Scalar)
    ensures Minimum(Extra(c) + 1) <= c
  {
  }

  lemma CodeAccepted(c: Scalar, rest: seq<byte>)
    ensures Front(Code(c) + rest) && Length(Code(c)[0]) == |Code(c)| && Point(Code(c)) == c
  {
    CodeMeans(c);
    CodeInFront(c, rest);
    CodeContinues(c, rest);
    ExtraFits(c);
  }

  /** How far lead bits and `k` continuation bytes reach. */
  lemma Reach(lead: nat, rest: seq<byte>)
    requires |rest| <= 2
    ensures |rest| == 0 ==> Bits(lead, rest) == lead
    ensures |rest| == 1 ==> Bits(lead, rest) < (lead + 1) * 64
    ensures |rest| == 2 ==> Bits(lead, rest) < (lead + 1) * 4096
  {
    if rest != [] {
      Reach(lead, rest[..|rest| - 1]);
    }
  }

  /** A value that is not below the minimum of its length takes that many continuation bytes. */
  lemma ExtraOf(first: byte, rest: seq<byte>, c: Scalar)
    requires Length(first) == |rest| + 1 && Minimum(|rest| + 1) <= c
    requires c == Bits(Lead(first, |rest| + 1), rest)
    ensures Extra(c) == |rest|
  {
    var lead := Lead(first, |rest| + 1);
    if |rest| <= 2 {
      Reach(lead, rest);
    }
  }

  /** The lead byte of a value whose high bits it carries. */
  lemma LeadOf(first: byte, c: Scalar)
    requires Length(first) == Extra(c) + 1 && High(c, Extra(c)) == Lead(first, Extra(c) + 1)
    ensures Code(c)[0] == first
  {
    HighFits(c);
  }

  /** A lead byte and continuation bytes are the code of the value they mean. */
  lemma Recoded(first: byte, rest: seq<byte>, c: Scalar)
    requires Length(first) == |rest| + 1 && Minimum(|rest| + 1) <= c
    requires forall i :: 0 <= i < |rest| ==> Continuation(rest[i])
    requires c == Bits(Lead(first, |rest| + 1), rest)
    ensures Code(c) == [first] + rest
  {
    ExtraOf(first, rest, c);
    Disassemble(Lead(first, |rest| + 1), rest);
    LeadOf(first, c);
    assert Code(c) == [Code(c)[0]] + Low(c, Extra(c));
  }

  /** Accepted bytes are the bytes of the value they mean. */
  lemma AcceptedCode(b: seq<byte>)
    requires b != [] && Front(b)
    ensures Code(Point(b[..Length(b[0])])) == b[..Length(b[0])]
  {
    var n := Length(b[0]);
    var rest := b[1..n];
    assert b[..n][1..] == rest && b[..n] == [b[0]] + rest;
    forall i | 0 <= i < |rest|
      ensures Continuation(rest[i])
    {
      assert rest[i] == b[i + 1];
    }
    Recoded(b[0], rest, Point(b[..n]));
  }

  lemma Extend(b: seq<byte>, text: Text)
    requires b != [] && Front(b) && Encode(text) == b[Length(b[0])..]
    ensures Encode([Point(b[..Length(b[0])]) as Scalar] + text) == b
  {
    var n := Length(b[0]);
    var c: Scalar := Point(b[..n]);
    AcceptedCode(b);
    FlattenExtend(Code, c, text, b, n);
  }

  /** The front of a valid byte string is one value, and the rest is valid on its own. */
  lemma ValidStep(b: seq<byte>)
    requires b != []
    ensures Valid(b) <==> Front(b) && Valid(b[Length(b[0])..])
  {
    if Valid(b) {
      var text: Text :| Encode(text) == b;
      CodeAccepted(text[0], Encode(text[1..]));
      assert b[Length(b[0])..] == Encode(text[1..]);
    }
    if Front(b) && Valid(b[Length(b[0])..]) {
      var n := Length(b[0]);
      var text: Text :| Encode(text) == b[n..];
      Extend(b, text);
    }
  }

  /** The text a valid byte string encodes. */
  function Decode(b: seq<byte>): (text: Text)
    requires Valid(b)
    ensures Encode(text) == b
    decreases |b|
  {
    if b == [] then []
    else
      ValidStep(b);
      var rest := Decode(b[Length(b[0])..]);
      Extend(b, rest);
      [Point(b[..Length(b[0])]) as Scalar] + rest
  }

  /** No byte string encodes two texts. */
  lemma {:induction false} DecodeEncode(text: Text)
    ensures Valid(Encode(text)) && Decode(Encode(text)) == text
  {
    if text != [] {
      var b := Encode(text);
      CodeAccepted(text[0], Encode(text[1..]));
      var n := Length(b[0]);
      assert b[..n] == Code(text[0]) && b[n..] == Encode(text[1..]);
      DecodeEncode(text[1..]);
    }
  }

  /** The body of the validator's loop: the length of the sequence at `i`, 0 if it is no scalar value. */
  method Take(bytes: seq<byte>, i: nat) returns (n: nat)
    requires i < |bytes|
    ensures n == if Front(bytes[i..]) then Length(bytes[i]) else 0
  {
    ghost var rest := bytes[i..];
    var first := bytes[i];
    if first <= 0x7F {
      return 1;
    }
    var count: int, point: int, minimum: int;
    if 0xC2 <= first <= 0xDF {
      count, point, minimum := 2, first % 0x20, 0x80;
    } else if 0xE0 <= first <= 0xEF {
      count, point, minimum := 3, first % 0x10, 0x800;
    } else if 0xF0 <= first <= 0xF4 {
      count, point, minimum := 4, first % 0x08, 0x10000;
    } else {
      return 0;
    }
    if i + count > |bytes| {
      return 0;
    }
    for offset := 1 to count
      invariant forall k :: 1 <= k < offset ==> Continuation(rest[k])
      invariant point == Bits(Lead(first, count), rest[1..offset])
    {
      var continuation := bytes[i + offset];
      if !(0x80 <= continuation < 0xC0) {
        assert !Continuation(rest[offset]);
        return 0;
      }
      assert rest[1..offset + 1][..offset - 1] == rest[1..offset];
      point := point * 64 + continuation % 64;
    }
    assert rest[..count][1..] == rest[1..count];
    return if point < minimum || point > 0x10FFFF || 0xD800 <= point <= 0xDFFF then 0 else count;
  }

  /** `validUtf8` */
  method Validate(bytes: seq<byte>) returns (ok: bool)
    ensures ok <==> Valid(bytes)
  {
    var i := 0;
    assert bytes[0..] == bytes;
    while i < |bytes|
      invariant 0 <= i <= |bytes|
      invariant Valid(bytes) <==> Valid(bytes[i..])
    {
      ValidStep(bytes[i..]);
      var n := Take(bytes, i);
      if n == 0 {
        return false;
      }
      assert bytes[i..][n..] == bytes[i + n..];
      i := i + n;
    }
    assert bytes[i..] == [] == Encode([]);
    return true;
  }
}
