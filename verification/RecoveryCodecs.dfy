/**
  The frames that go into the hash of a settings transaction: the length of a part in decimal
  digits, a colon, and the part.
*/
module DecimalFraming {
  import opened Bytes

  const COLON: byte := 0x3A

  function Decimal(n: nat): (d: seq<byte>)
    ensures forall i :: 0 <= i < |d| ==> d[i] != COLON
  {
    if n < 10 then [0x30 + n] else Decimal(n / 10) + [0x30 + n % 10]
  }

  function Value(d: seq<byte>): int {
    if d == [] then 0 else Value(d[..|d| - 1]) * 10 + (d[|d| - 1] as int - 0x30)
  }

  function Frame(part: seq<byte>): seq<byte> {
    Decimal(|part|) + [COLON] + part
  }

  lemma {:induction false} DecimalValue(n: nat)
    ensures Value(Decimal(n)) == n
  {
    if n >= 10 {
      DecimalValue(n / 10);
      assert Decimal(n)[..|Decimal(n)| - 1] == Decimal(n / 10);
    } else {
      assert Value([]) == 0;
    }
  }

  /** The first colon ends the length. */
  lemma SameDigits(d: seq<byte>, x: seq<byte>, d': seq<byte>, x': seq<byte>)
    requires forall i :: 0 <= i < |d| ==> d[i] != COLON
    requires forall i :: 0 <= i < |d'| ==> d'[i] != COLON
    requires d + ([COLON] + x) == d' + ([COLON] + x')
    ensures d == d' && x == x'
  {
    var s := d + ([COLON] + x);
    assert s[|d|] == COLON && s[|d'|] == COLON;
    assert |d| == |d'|;
    assert d == s[..|d|] && d' == s[..|d'|];
    assert x == s[|d| + 1..] && x' == s[|d'| + 1..];
  }

  lemma FrameSplits(a: seq<byte>, x: seq<byte>, b: seq<byte>, y: seq<byte>)
    requires Frame(a) + x == Frame(b) + y
    ensures a == b && x == y
  {
    assert Frame(a) + x == Decimal(|a|) + ([COLON] + (a + x));
    assert Frame(b) + y == Decimal(|b|) + ([COLON] + (b + y));
    SameDigits(Decimal(|a|), a + x, Decimal(|b|), b + y);
    DecimalValue(|a|);
    DecimalValue(|b|);
    assert a == (a + x)[..|a|] && b == (b + y)[..|b|];
    assert x == (a + x)[|a|..] && y == (b + y)[|b|..];
  }

  /** Equal framed bytes mean equal parts, however many there are. */
  lemma {:induction false} FramesAreUnique(parts: seq<seq<byte>>, parts': seq<seq<byte>>)
    requires Flatten(Frame, parts) == Flatten(Frame, parts')
    ensures parts == parts'
  {
    if parts == [] || parts' == [] {
      assert parts != [] ==> |Flatten(Frame, parts)| > 0;
      assert parts' != [] ==> |Flatten(Frame, parts')| > 0;
    } else {
      FrameSplits(parts[0], Flatten(Frame, parts[1..]), parts'[0], Flatten(Frame, parts'[1..]));
      FramesAreUnique(parts[1..], parts'[1..]);
    }
  }
}

/**
  The byte formats of the recovery artifacts: the capsule of a settings save, the two capsules
  of an import, and the manifest of the profile store. Authentication tags and the writing of
  a state as text are parameters.
*/
module RecoveryCodecs {
  import opened Bytes
  import opened Crash
  import opened DecimalFraming

  const ID_BYTES := 36
  const TAG_BYTES := 32
  const MAX_CHUNK := 1024 * 1024
  const WORD := 0x1_0000_0000
  const SETTINGS_MAGIC: seq<byte> := [0x49, 0x4C, 0x41, 0x43, 0x53, 0x4A, 0x35]  // ILACSJ5
  const IMPORT_MAGIC: seq<byte> := [0x49, 0x4C, 0x49, 0x4D, 0x4A, 0x34]  // ILIMJ4
  const MANIFEST_MAGIC: seq<byte> := [0x49, 0x4C, 0x45, 0x50, 0x4D, 0x32]  // ILEPM2

  /** How states are written and read back; nothing longer than `max` is read. */
  datatype TextCodec<!S(!new)> = TextCodec(write: S -> seq<byte>, read: seq<byte> -> Option<S>, max: nat) {
    ghost predicate Lawful() {
      max <= MAX_CHUNK
      && (forall s :: 0 < |write(s)| <= max ==> read(write(s)) == Some(s))
      && (forall b :: read(b).Some? ==> 0 < |b| <= max)
    }

    ghost predicate Fits(s: S) {
      0 < |write(s)| <= max
    }
  }

  // ---------------------------------------------------------------------------------------
  // Chunks with a length, flags, and an optional secret to the end

  function Chunk(x: seq<byte>): seq<byte> {
    ToBigEndian(|x| % WORD) + x
  }

  function ReadChunk(b: seq<byte>): Option<(seq<byte>, seq<byte>)> {
    if |b| < 4 then None
    else
      var n := FromBigEndian(b[..4]);
      if n > MAX_CHUNK || |b| - 4 < n then None else Some((b[4..4 + n], b[4 + n..]))
  }

  lemma ChunkHead(x: seq<byte>, rest: seq<byte>)
    requires |x| < WORD
    ensures FromBigEndian((Chunk(x) + rest)[..4]) == |x|
  {
    var head := ToBigEndian(|x|);
    assert |x| % WORD == |x| && Chunk(x) == head + x;
    assert (head + x + rest)[..4] == head;
  }

  lemma ChunkRoundTrip(x: seq<byte>, rest: seq<byte>)
    requires |x| < WORD
    ensures ReadChunk(Chunk(x) + rest) == if |x| <= MAX_CHUNK then Some((x, rest)) else None
  {
    ChunkHead(x, rest);
    if |x| <= MAX_CHUNK {
      assert (Chunk(x) + rest)[4..4 + |x|] == x && (Chunk(x) + rest)[4 + |x|..] == rest;
    }
  }

  /** A chunk with its length in front. */
  predicate Framed(b: seq<byte>, x: seq<byte>, rest: seq<byte>) {
    |x| <= MAX_CHUNK && b == ToBigEndian(|x|) + x + rest
  }

  lemma FramedIsRead(b: seq<byte>, x: seq<byte>, rest: seq<byte>)
    requires Framed(b, x, rest)
    ensures ReadChunk(b) == Some((x, rest))
  {
    assert |x| % WORD == |x|;
    ChunkRoundTrip(x, rest);
  }

  lemma ReadIsFramed(b: seq<byte>)
    requires ReadChunk(b).Some?
    ensures Framed(b, ReadChunk(b).value.0, ReadChunk(b).value.1)
  {
    var x := ReadChunk(b).value.0;
    BigEndianUnique(b[..4], ToBigEndian(|x|));
    assert b == b[..4] + b[4..4 + |x|] + b[4 + |x|..];
  }

  function Flag(on: bool): byte {
    if on then 1 else 0
  }

  function Secret(s: Option<seq<byte>>): seq<byte> {
    if s.Some? then [1] + s.value else [0]
  }

  function ReadSecret(b: seq<byte>): Option<Option<seq<byte>>> {
    if b == [] then None
    else if b[0] == 0 then (if |b| == 1 then Some(None) else None)
    else if b[0] == 1 then Some(Some(b[1..]))
    else None
  }

  lemma SecretRoundTrip(s: Option<seq<byte>>)
    ensures ReadSecret(Secret(s)) == Some(s)
  {
  }

  lemma ReadSecretMeans(b: seq<byte>, s: Option<seq<byte>>)
    ensures ReadSecret(b) == Some(s) <==> b == if s.Some? then [1] + s.value else [0]
  {
    if ReadSecret(b) == Some(s) {
      assert b == [b[0]] + b[1..];
    }
  }

  // ---------------------------------------------------------------------------------------
  // The capsule of a settings save

  datatype Capsule<S> = Capsule(
    id: seq<byte>, original: S, candidate: S, hadSecret: bool, changesSecret: bool, secret: Option<seq<byte>>)

  datatype Settings<!S(!new)> = Settings(
    text: TextCodec<S>, canonical: seq<byte> -> bool, tag: Capsule<S> -> seq<byte>)
  {
    ghost predicate Lawful() {
      text.Lawful()
      && (forall c :: |tag(c)| == TAG_BYTES)
      && (forall id :: canonical(id) ==> |id| == ID_BYTES)
    }

    /** The bytes that `bindingFor` hashes. */
    function BindingInput(domain: seq<byte>, id: seq<byte>, original: S, candidate: S): seq<byte> {
      Flatten(Frame, [domain, id, text.write(original), text.write(candidate)])
    }

    /** They determine the transaction: its id, the state before and the state after. */
    lemma BindingDetermines(domain: seq<byte>, id: seq<byte>, original: S, candidate: S, id': seq<byte>, original': S,
                            candidate': S)
      requires Lawful() && text.Fits(original) && text.Fits(candidate)
      requires BindingInput(domain, id, original, candidate) == BindingInput(domain, id', original', candidate')
      ensures id == id' && original == original' && candidate == candidate'
    {
      var parts := [domain, id, text.write(original), text.write(candidate)];
      var parts' := [domain, id', text.write(original'), text.write(candidate')];
      FramesAreUnique(parts, parts');
      assert parts[1] == parts'[1] && parts[2] == parts'[2] && parts[3] == parts'[3];
    }

    function Body(c: Capsule<S>): seq<byte> {
      Chunk(text.write(c.original)) + (Chunk(text.write(c.candidate))
        + ([Flag(c.hadSecret), Flag(c.changesSecret)] + Secret(c.secret)))
    }

    function Encode(c: Capsule<S>): seq<byte> {
      SETTINGS_MAGIC + c.id + tag(c) + Body(c)
    }

    function ReadBody(id: seq<byte>, b: seq<byte>): Option<Capsule<S>> {
      var first := ReadChunk(b);
      if first.None? then None
      else
        var second := ReadChunk(first.value.1);
        if second.None? then None
        else
          var original, candidate, rest := text.read(first.value.0), text.read(second.value.0), second.value.1;
          if original.None? || candidate.None? || |rest| < 3 || rest[0] > 1 || rest[1] > 1 then None
          else
            var secret := ReadSecret(rest[2..]);
            if secret.None? then None
            else Some(Capsule(id, original.value, candidate.value, rest[0] == 1, rest[1] == 1, secret.value))
    }

    function Decode(b: seq<byte>): Option<Capsule<S>> {
      var m := |SETTINGS_MAGIC|;
      if |b| < m + ID_BYTES + TAG_BYTES + 11 || b[..m] != SETTINGS_MAGIC || !canonical(b[m..m + ID_BYTES]) then None
      else
        var c := ReadBody(b[m..m + ID_BYTES], b[m + ID_BYTES + TAG_BYTES..]);
        if c.Some? && tag(c.value) == b[m + ID_BYTES..m + ID_BYTES + TAG_BYTES] then c else None
    }

    lemma BodyRoundTrip(c: Capsule<S>)
      requires Lawful() && |text.write(c.original)| < WORD && |text.write(c.candidate)| < WORD
      ensures ReadBody(c.id, Body(c)) == if text.Fits(c.original) && text.Fits(c.candidate) then Some(c) else None
    {
      var flags := [Flag(c.hadSecret), Flag(c.changesSecret)] + Secret(c.secret);
      ChunkRoundTrip(text.write(c.original), Chunk(text.write(c.candidate)) + flags);
      ChunkRoundTrip(text.write(c.candidate), flags);
      SecretRoundTrip(c.secret);
      assert flags[2..] == Secret(c.secret);
    }

    /** The parts of a body: both states with their lengths, two flags, and the secret to the end. */
    ghost predicate Holds(b: seq<byte>, c: Capsule<S>, x: seq<byte>, y: seq<byte>, rest: seq<byte>, end: seq<byte>) {
      && Framed(b, x, rest) && text.read(x) == Some(c.original)
      && Framed(rest, y, end) && text.read(y) == Some(c.candidate)
      && |end| >= 3 && end[0] == (if c.hadSecret then 1 else 0) && end[1] == (if c.changesSecret then 1 else 0)
      && end[2..] == if c.secret.Some? then [1] + c.secret.value else [0]
    }

    lemma BodyWasHeld(b: seq<byte>, c: Capsule<S>)
      requires ReadBody(c.id, b) == Some(c)
      ensures exists x, y, rest, end :: Holds(b, c, x, y, rest, end)
    {
      var first := ReadChunk(b).value;
      var second := ReadChunk(first.1).value;
      ReadIsFramed(b);
      ReadIsFramed(first.1);
      ReadSecretMeans(second.1[2..], c.secret);
      assert Holds(b, c, first.0, second.0, first.1, second.1);
    }

    lemma BodyIsRead(b: seq<byte>, c: Capsule<S>, x: seq<byte>, y: seq<byte>, rest: seq<byte>, end: seq<byte>)
      requires Holds(b, c, x, y, rest, end)
      ensures ReadBody(c.id, b) == Some(c)
    {
      FramedIsRead(b, x, rest);
      FramedIsRead(rest, y, end);
      ReadSecretMeans(end[2..], c.secret);
    }

    lemma BodyIs(b: seq<byte>, c: Capsule<S>)
      ensures ReadBody(c.id, b) == Some(c) <==> exists x, y, rest, end :: Holds(b, c, x, y, rest, end)
    {
      if ReadBody(c.id, b) == Some(c) {
        BodyWasHeld(b, c);
      }
      if x, y, rest, end :| Holds(b, c, x, y, rest, end) {
        BodyIsRead(b, c, x, y, rest, end);
      }
    }

    /** Exactly this is accepted: magic, canonical id, tag, both states with their lengths, two
        flags, and the secret to the end. */
    lemma AcceptedIff(b: seq<byte>, c: Capsule<S>)
      requires Lawful()
      ensures Decode(b) == Some(c) <==>
        && canonical(c.id) && |b| >= 75 && b[..7] == SETTINGS_MAGIC && b[7..43] == c.id && b[43..75] == tag(c)
        && exists x, y, rest, end :: Holds(b[75..], c, x, y, rest, end)
    {
      if |b| >= 75 && b[7..43] == c.id {
        BodyIs(b[75..], c);
      }
    }

    /** A capsule comes back as it was written exactly when its id is canonical and both states
        are within the size that is read, whatever its flags and secret. */
    lemma RoundTrip(c: Capsule<S>)
      requires Lawful() && |c.id| == ID_BYTES && |text.write(c.original)| < WORD && |text.write(c.candidate)| < WORD
      ensures Decode(Encode(c)) == Some(c) <==> canonical(c.id) && text.Fits(c.original) && text.Fits(c.candidate)
    {
      var b, m := Encode(c), |SETTINGS_MAGIC|;
      assert b[..m] == SETTINGS_MAGIC;
      assert b[m..m + ID_BYTES] == c.id;
      assert b[m + ID_BYTES..m + ID_BYTES + TAG_BYTES] == tag(c);
      assert b[m + ID_BYTES + TAG_BYTES..] == Body(c);
      BodyRoundTrip(c);
    }
  }

  // ---------------------------------------------------------------------------------------
  // The two capsules of an import

  datatype ImportCapsule<S> = ImportCapsule(id: seq<byte>, common: seq<byte>, role: byte, snapshot: S,
                                            secret: Option<seq<byte>>)

  datatype Import<!S(!new)> = Import(
    text: TextCodec<S>, canonical: seq<byte> -> bool, tag: (seq<byte>, byte, seq<byte>, Option<seq<byte>>) -> seq<byte>)
  {
    ghost predicate Lawful() {
      text.Lawful()
      && (forall common, role, written, secret :: |tag(common, role, written, secret)| == TAG_BYTES)
      && (forall id :: canonical(id) ==> |id| == ID_BYTES)
    }

    function Encode(c: ImportCapsule<S>): seq<byte> {
      var written := text.write(c.snapshot);
      IMPORT_MAGIC + c.id + c.common + [c.role] + tag(c.common, c.role, written, c.secret)
      + (Chunk(written) + Secret(c.secret))
    }

    /** The rest after the fixed-size fields. */
    function ReadRest(id: seq<byte>, common: seq<byte>, role: byte, digest: seq<byte>,
                      b: seq<byte>): Option<ImportCapsule<S>> {
      var chunk := ReadChunk(b);
      if chunk.None? then None
      else
        var snapshot, secret := text.read(chunk.value.0), ReadSecret(chunk.value.1);
        if snapshot.None? || secret.None? || tag(common, role, chunk.value.0, secret.value) != digest then None
        else Some(ImportCapsule(id, common, role, snapshot.value, secret.value))
    }

    function Decode(b: seq<byte>, expected: byte): Option<ImportCapsule<S>> {
      var i := |IMPORT_MAGIC|;
      var c := i + ID_BYTES;
      var r := c + TAG_BYTES;
      var d := r + 1 + TAG_BYTES;
      if |b| < d + 5 || b[..i] != IMPORT_MAGIC || !canonical(b[i..c]) || b[r] != expected then None
      else ReadRest(b[i..c], b[c..r], b[r], b[r + 1..d], b[d..])
    }

    /** The snapshot with its length, and the secret to the end. */
    ghost predicate Holds(b: seq<byte>, c: ImportCapsule<S>, digest: seq<byte>, x: seq<byte>, end: seq<byte>) {
      && Framed(b, x, end) && text.read(x) == Some(c.snapshot) && digest == tag(c.common, c.role, x, c.secret)
      && end == if c.secret.Some? then [1] + c.secret.value else [0]
    }

    lemma RestIs(b: seq<byte>, c: ImportCapsule<S>, digest: seq<byte>)
      ensures ReadRest(c.id, c.common, c.role, digest, b) == Some(c) <==> exists x, end :: Holds(b, c, digest, x, end)
    {
      if ReadRest(c.id, c.common, c.role, digest, b) == Some(c) {
        var chunk := ReadChunk(b).value;
        ReadIsFramed(b);
        ReadSecretMeans(chunk.1, c.secret);
        assert Holds(b, c, digest, chunk.0, chunk.1);
      }
      if x, end :| Holds(b, c, digest, x, end) {
        FramedIsRead(b, x, end);
        ReadSecretMeans(end, c.secret);
      }
    }

    /** Exactly this is accepted: magic, canonical id, common tag, the role that is asked for, the
        capsule's own tag, the snapshot with its length, and the secret to the end. */
    lemma AcceptedIff(b: seq<byte>, expected: byte, c: ImportCapsule<S>)
      ensures Decode(b, expected) == Some(c) <==>
        && |b| >= 107 && b[..6] == IMPORT_MAGIC && b[6..42] == c.id && canonical(c.id) && b[42..74] == c.common
        && b[74] == c.role == expected && exists x, end :: Holds(b[107..], c, b[75..107], x, end)
    {
      if |b| >= 107 && b[6..42] == c.id && b[42..74] == c.common && b[74] == c.role {
        RestIs(b[107..], c, b[75..107]);
      }
    }

    /** A capsule comes back, to whoever asks for its role, exactly when its id is canonical
        and its snapshot within the size that is read. */
    lemma RoundTrip(c: ImportCapsule<S>, expected: byte)
      requires Lawful() && |c.id| == ID_BYTES && |c.common| == TAG_BYTES && |text.write(c.snapshot)| < WORD
      ensures Decode(Encode(c), expected) == Some(c) <==> canonical(c.id) && text.Fits(c.snapshot) && expected == c.role
      ensures expected != c.role ==> Decode(Encode(c), expected) == None
    {
      var b := Encode(c);
      var i := |IMPORT_MAGIC|;
      var m := i + ID_BYTES;
      var r := m + TAG_BYTES;
      var d := r + 1 + TAG_BYTES;
      var written := text.write(c.snapshot);
      assert b[..i] == IMPORT_MAGIC;
      assert b[i..m] == c.id;
      assert b[m..r] == c.common;
      assert b[r] == c.role;
      assert b[r + 1..d] == tag(c.common, c.role, written, c.secret);
      assert b[d..] == Chunk(written) + Secret(c.secret);
      ChunkRoundTrip(written, Secret(c.secret));
      SecretRoundTrip(c.secret);
    }
  }

  // ---------------------------------------------------------------------------------------
  // The manifest of the profile store

  datatype Manifest = Manifest(schema: byte, active: seq<byte>, activeTag: seq<byte>,
                               recovery: Option<(seq<byte>, seq<byte>)>)

  datatype Root = Root(canonical: seq<byte> -> bool, mac: seq<byte> -> seq<byte>) {
    ghost predicate Lawful() {
      (forall b :: |mac(b)| == TAG_BYTES) && (forall id :: canonical(id) ==> |id| == ID_BYTES)
    }

    predicate WellFormed(m: Manifest) {
      |m.activeTag| == TAG_BYTES && canonical(m.active)
      && (m.recovery.Some? ==>
            canonical(m.recovery.value.0) && |m.recovery.value.1| == TAG_BYTES && m.recovery.value.0 != m.active)
    }

    function Payload(m: Manifest): seq<byte> {
      MANIFEST_MAGIC + [m.schema] + m.active
      + if m.recovery.Some? then [1] + m.recovery.value.0 + m.activeTag + m.recovery.value.1 else [0] + m.activeTag
    }

    function Encode(m: Manifest): seq<byte> {
      Payload(m) + mac(Payload(m))
    }

    function Decode(b: seq<byte>): Option<Manifest> {
      var base := |MANIFEST_MAGIC| + 1 + ID_BYTES + 1 + TAG_BYTES + TAG_BYTES;
      var full := base + ID_BYTES + TAG_BYTES;
      if (|b| != base && |b| != full) || b[..6] != MANIFEST_MAGIC
         || mac(b[..|b| - TAG_BYTES]) != b[|b| - TAG_BYTES..] then None
      else
        var active, flag := b[7..43], b[43];
        if flag == 1 && |b| == full then
          var m := Manifest(b[6], active, b[80..112], Some((b[44..80], b[112..144])));
          if canonical(active) && canonical(b[44..80]) && b[44..80] != active then Some(m) else None
        else if flag == 0 && |b| == base && canonical(active) then Some(Manifest(b[6], active, b[44..76], None))
        else None
    }

    /** A manifest comes back exactly when it is well-formed. */
    lemma RoundTripIff(m: Manifest)
      requires Lawful()
      ensures Decode(Encode(m)) == Some(m) <==> WellFormed(m)
    {
      if WellFormed(m) {
        RoundTrip(m);
      }
      if Decode(Encode(m)) == Some(m) {
        OnlyEncodings(Encode(m));
      }
    }

    /** Where the parts of a manifest are. */
    lemma Layout(m: Manifest, end: seq<byte>)
      requires |m.active| == ID_BYTES && |m.activeTag| == TAG_BYTES
      requires m.recovery.Some? ==> |m.recovery.value.0| == ID_BYTES && |m.recovery.value.1| == TAG_BYTES
      ensures var b := Payload(m) + end;
        && |Payload(m)| == (if m.recovery.Some? then 144 else 76)
        && b[..6] == MANIFEST_MAGIC && b[6] == m.schema && b[7..43] == m.active
        && b[43] == Flag(m.recovery.Some?)
        && (m.recovery.Some? ==>
              b[44..80] == m.recovery.value.0 && b[80..112] == m.activeTag && b[112..144] == m.recovery.value.1)
        && (m.recovery.None? ==> b[44..76] == m.activeTag)
    {
      var tail := if m.recovery.Some? then m.recovery.value.0 + m.activeTag + m.recovery.value.1 else m.activeTag;
      var b := Payload(m) + end;
      assert b == MANIFEST_MAGIC + [m.schema] + m.active + [Flag(m.recovery.Some?)] + tail + end;
      assert b[44..44 + |tail|] == tail;
      if m.recovery.Some? {
        assert b[44..80] == tail[..36] && b[80..112] == tail[36..68] && b[112..144] == tail[68..];
      }
    }

    lemma RoundTrip(m: Manifest)
      requires Lawful() && WellFormed(m)
      ensures Decode(Encode(m)) == Some(m)
    {
      var p, b := Payload(m), Encode(m);
      assert |m.active| == ID_BYTES;
      assert m.recovery.Some? ==> |m.recovery.value.0| == ID_BYTES;
      Layout(m, mac(p));
      assert b[..|b| - TAG_BYTES] == p && b[|b| - TAG_BYTES..] == mac(p);
    }

    /** Nothing else is accepted: whatever decodes is the encoding of what it decodes to. */
    lemma OnlyEncodings(b: seq<byte>)
      requires Lawful() && Decode(b).Some?
      ensures WellFormed(Decode(b).value) && Encode(Decode(b).value) == b
    {
      var m := Decode(b).value;
      var p := b[..|b| - TAG_BYTES];
      assert b == p + b[|b| - TAG_BYTES..];
      if m.recovery.Some? {
        assert p == b[..6] + [b[6]] + b[7..43] + ([b[43]] + b[44..80] + b[80..112] + b[112..144]);
      } else {
        assert p == b[..6] + [b[6]] + b[7..43] + ([b[43]] + b[44..76]);
      }
      assert p == Payload(m);
    }
  }
}
