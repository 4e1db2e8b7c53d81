/**
  The plaintext inside an authenticated sensitive envelope: a ten-byte header and at most one
  pairing code. The text library is a parameter: which code points count as spaces, and
  whether converting bytes to text drops a leading byte order mark.
*/
module SensitivePayload {
  import opened Bytes
  import opened Crash
  import Utf8

  const HEADER := 10
  const MAX_CODE := 1024
  const MAGIC: seq<byte> := [0x49, 0x4C, 0x53, 0x50]  // ILSP
  const VERSION: byte := 1
  const MARK: Utf8.Scalar := 0xFEFF

  datatype Library = Library(space: int -> bool, dropsMark: bool)

  type Snapshot = Option<seq<byte>>

  datatype Problem = Malformed | UnsupportedVersion | InvalidState | TooLarge | InvalidUtf8

  datatype Result = Ok(snapshot: Snapshot) | Err(problem: Problem)

  // ---------------------------------------------------------------------------------------
  // Text

  function DropMark(lib: Library, text: Utf8.Text): Utf8.Text {
    if lib.dropsMark && text != [] && text[0] == MARK then text[1..] else text
  }

  function TrimLeft(lib: Library, text: Utf8.Text): Utf8.Text {
    if text != [] && lib.space(text[0]) then TrimLeft(lib, text[1..]) else text
  }

  function TrimRight(lib: Library, text: Utf8.Text): Utf8.Text {
    if text != [] && lib.space(text[|text| - 1]) then TrimRight(lib, text[..|text| - 1]) else text
  }

  function Clean(lib: Library, text: Utf8.Text): Utf8.Text {
    TrimRight(lib, TrimLeft(lib, DropMark(lib, text)))
  }

  predicate Trimmed(lib: Library, text: Utf8.Text) {
    text != [] ==> !lib.space(text[0]) && !lib.space(text[|text| - 1])
  }

  predicate Blank(lib: Library, text: Utf8.Text) {
    forall i :: 0 <= i < |text| ==> lib.space(text[i])
  }

  /** `core` is `text` without the spaces around it. */
  ghost predicate Core(lib: Library, text: Utf8.Text, core: Utf8.Text) {
    Trimmed(lib, core) && exists left: Utf8.Text, right: Utf8.Text ::
      text == left + core + right && Blank(lib, left) && Blank(lib, right)
  }

  /** What a library that drops a leading mark makes of a text, without the spaces around it. */
  ghost predicate Normalises(lib: Library, text: Utf8.Text, core: Utf8.Text) {
    if Marked(lib, text) then Core(lib, text[1..], core) else Core(lib, text, core)
  }

  predicate Marked(lib: Library, text: Utf8.Text) {
    lib.dropsMark && text != [] && text[0] == MARK
  }

  lemma {:induction false} LeftIsTail(lib: Library, text: Utf8.Text)
    ensures var t := TrimLeft(lib, text);
      |t| <= |text| && t == text[|text| - |t|..] && |Utf8.Encode(t)| <= |Utf8.Encode(text)|
      && Blank(lib, text[..|text| - |t|]) && (t != [] ==> !lib.space(t[0]))
  {
    if text != [] && lib.space(text[0]) {
      LeftIsTail(lib, text[1..]);
      var n := |text| - |TrimLeft(lib, text)|;
      assert text[..n] == [text[0]] + text[1..][..n - 1];
    }
  }

  lemma {:induction false} RightIsFront(lib: Library, text: Utf8.Text)
    ensures var t := TrimRight(lib, text);
      |t| <= |text| && t == text[..|t|] && |Utf8.Encode(t)| <= |Utf8.Encode(text)|
      && Blank(lib, text[|t|..]) && (t != [] ==> !lib.space(t[|t| - 1]))
  {
    if text != [] && lib.space(text[|text| - 1]) {
      var less := text[..|text| - 1];
      RightIsFront(lib, less);
      assert text[|TrimRight(lib, text)|..] == less[|TrimRight(lib, text)|..] + [text[|text| - 1]];
      FlattenAppend(Utf8.Code, less, [text[|text| - 1]]);
      assert text == less + [text[|text| - 1]];
    }
  }

  /** What is left of a text is trimmed and no longer than it was. */
  lemma CleanIsTrimmed(lib: Library, text: Utf8.Text)
    ensures Trimmed(lib, Clean(lib, text))
    ensures |Clean(lib, text)| <= |text| && |Utf8.Encode(Clean(lib, text))| <= |Utf8.Encode(text)|
    ensures Marked(lib, text) ==> |Clean(lib, text)| < |text|
  {
    var marked := DropMark(lib, text);
    LeftIsTail(lib, marked);
    RightIsFront(lib, TrimLeft(lib, marked));
  }

  /** A text has one core. */
  lemma CoreIsUnique(lib: Library, a: Utf8.Text, core: Utf8.Text, b: Utf8.Text, a': Utf8.Text, core': Utf8.Text,
                     b': Utf8.Text)
    requires a + core + b == a' + core' + b' && Trimmed(lib, core) && Trimmed(lib, core')
    requires Blank(lib, a) && Blank(lib, b) && Blank(lib, a') && Blank(lib, b')
    ensures core == core'
  {
    var text := a + core + b;
    if core != [] {
      Bounds(lib, a, core, b);
    }
    if core' != [] {
      Bounds(lib, a', core', b');
    }
    if core != [] && core' != [] {
      assert core == text[|a|..|a| + |core|] && core' == text[|a'|..|a'| + |core'|];
    }
  }

  /** Where the core of a text is. */
  lemma Bounds(lib: Library, a: Utf8.Text, core: Utf8.Text, b: Utf8.Text)
    requires core != [] && Trimmed(lib, core) && Blank(lib, a) && Blank(lib, b)
    ensures var text := a + core + b; var end := |a| + |core|;
      && (forall i :: 0 <= i < |a| || end <= i < |text| ==> lib.space(text[i]))
      && !lib.space(text[|a|]) && !lib.space(text[end - 1])
  {
    var text := a + core + b;
    assert text[|a|] == core[0] && text[|a| + |core| - 1] == core[|core| - 1];
  }

  lemma AroundClean(lib: Library, text: Utf8.Text) returns (a: Utf8.Text, b: Utf8.Text)
    ensures DropMark(lib, text) == a + Clean(lib, text) + b && Blank(lib, a) && Blank(lib, b)
  {
    var marked := DropMark(lib, text);
    var left, clean := TrimLeft(lib, marked), Clean(lib, text);
    LeftIsTail(lib, marked);
    RightIsFront(lib, left);
    a, b := marked[..|marked| - |left|], left[|clean|..];
  }

  /** Normalising, told without the loops that trim. */
  lemma CleanIsCore(lib: Library, text: Utf8.Text, core: Utf8.Text)
    ensures Clean(lib, text) == core <==> Normalises(lib, text, core)
  {
    var a, b := AroundClean(lib, text);
    CleanIsTrimmed(lib, text);
    if Normalises(lib, text, core) {
      var a', b' :| DropMark(lib, text) == a' + core + b' && Blank(lib, a') && Blank(lib, b');
      CoreIsUnique(lib, a, Clean(lib, text), b, a', core, b');
    } else {
      assert Core(lib, DropMark(lib, text), Clean(lib, text));
    }
  }

  /** The texts that normalising leaves alone. */
  lemma CleanFixed(lib: Library, text: Utf8.Text)
    ensures Clean(lib, text) == text <==> Trimmed(lib, text) && !Marked(lib, text)
  {
    CleanIsTrimmed(lib, text);
  }

  // ---------------------------------------------------------------------------------------
  // Format

  /** What the format says the bytes of a snapshot are. */
  function Encoded(snapshot: Snapshot): (b: seq<byte>) {
    var code := if snapshot.Some? then snapshot.value else [];
    if |code| > MAX_CODE then []
    else MAGIC + [VERSION, if snapshot.Some? then 1 else 0] + ToBigEndian(|code|) + code
  }

  ghost function Decoded(lib: Library, b: seq<byte>): Result {
    if |b| < HEADER || b[..4] != MAGIC then Err(Malformed)
    else if b[4] != VERSION then Err(UnsupportedVersion)
    else if b[5] != 0 && b[5] != 1 then Err(InvalidState)
    else
      var length := FromBigEndian(b[6..HEADER]);
      if length > MAX_CODE then Err(TooLarge)
      else if |b| != HEADER + length || (b[5] == 0 && length != 0) || (b[5] == 1 && length == 0) then Err(Malformed)
      else if b[5] == 0 then Ok(None)
      else if !Utf8.Valid(b[HEADER..]) then Err(InvalidUtf8)
      else
        var code := Utf8.Encode(Clean(lib, Utf8.Decode(b[HEADER..])));
        if code == [] then Err(Malformed) else Ok(Some(code))
  }

  /** `encode`: a buffer filled in place. */
  method Encode(snapshot: Snapshot) returns (bytes: seq<byte>)
    ensures bytes == Encoded(snapshot)
  {
    var code := if snapshot.Some? then snapshot.value else [];
    if |code| > MAX_CODE {
      return [];
    }
    bytes := Assemble(if snapshot.Some? then 1 else 0, ToBigEndian(|code|), code);
  }

  method Assemble(state: byte, length: seq<byte>, code: seq<byte>) returns (bytes: seq<byte>)
    requires |length| == 4
    ensures bytes == MAGIC + [VERSION, state] + length + code
  {
    var encoded := new byte[HEADER + |code|];
    Fill(encoded, 0, MAGIC);
    assert encoded[..4] == MAGIC;
    encoded[4] := VERSION;
    encoded[5] := state;
    ghost var front := encoded[..6];
    assert front == MAGIC + [VERSION, state];
    Fill(encoded, 6, length);
    assert encoded[..6] == front;
    ghost var head := encoded[..HEADER];
    assert head == front + length;
    Fill(encoded, HEADER, code);
    assert encoded[..HEADER] == head;
    return encoded[..];
  }

  /** Copies `part` into the buffer at `at`. */
  method Fill(buffer: array<byte>, at: nat, part: seq<byte>)
    requires at + |part| <= buffer.Length
    modifies buffer
    ensures forall k :: 0 <= k < at ==> buffer[k] == old(buffer[k])
    ensures buffer[at..at + |part|] == part
    ensures forall k :: at + |part| <= k < buffer.Length ==> buffer[k] == old(buffer[k])
  {
    for i := 0 to |part|
      invariant forall k :: 0 <= k < i ==> buffer[at + k] == part[k]
      invariant forall k :: 0 <= k < at || at + i <= k < buffer.Length ==> buffer[k] == old(buffer[k])
    {
      buffer[at + i] := part[i];
    }
  }

  /** `decode` */
  method Decode(lib: Library, b: seq<byte>) returns (r: Result)
    ensures r == Decoded(lib, b)
  {
    if |b| < HEADER || b[..4] != MAGIC {
      return Err(Malformed);
    }
    if b[4] != VERSION {
      return Err(UnsupportedVersion);
    }
    var state := b[5];
    if state != 0 && state != 1 {
      return Err(InvalidState);
    }
    var length := FromBigEndian(b[6..HEADER]);
    if length > MAX_CODE {
      return Err(TooLarge);
    }
    if |b| != HEADER + length || (state == 0 && length != 0) || (state == 1 && length == 0) {
      return Err(Malformed);
    }
    if state == 0 {
      return Ok(None);
    }
    var ok := Utf8.Validate(b[HEADER..]);
    if !ok {
      return Err(InvalidUtf8);
    }
    var code := Utf8.Encode(Clean(lib, Utf8.Decode(b[HEADER..])));
    return if code == [] then Err(Malformed) else Ok(Some(code));
  }

  // ---------------------------------------------------------------------------------------
  // Round trips

  lemma Layout(snapshot: Snapshot)
    requires snapshot.Some? ==> |snapshot.value| <= MAX_CODE
    ensures var b := Encoded(snapshot); var code := if snapshot.Some? then snapshot.value else [];
      |b| == HEADER + |code| && b[..4] == MAGIC && b[4] == VERSION && b[5] == (if snapshot.Some? then 1 else 0)
      && FromBigEndian(b[6..HEADER]) == |code| && b[HEADER..] == code
  {
    var b := Encoded(snapshot);
    var code := if snapshot.Some? then snapshot.value else [];
    assert b[6..HEADER] == ToBigEndian(|code|);
  }

  /** `b` is the encoding of the raw code `raw`, which normalises to `code`. */
  ghost predicate Carries(lib: Library, b: seq<byte>, raw: seq<byte>, code: seq<byte>) {
    |raw| <= MAX_CODE && Utf8.Valid(raw) && b == Encoded(Some(raw))
    && code != [] && exists core :: Normalises(lib, Utf8.Decode(raw), core) && code == Utf8.Encode(core)
  }

  lemma AcceptedIsEncoded(lib: Library, b: seq<byte>)
    requires Decoded(lib, b).Ok?
    ensures b == Encoded(if b[5] == 0 then None else Some(b[HEADER..]))
  {
    var raw := b[HEADER..];
    BigEndianUnique(b[6..HEADER], ToBigEndian(|raw|));
    assert b == b[..4] + [b[4], b[5]] + b[6..HEADER] + raw;
  }

  /** The decoder accepts exactly the encodings of absent codes and of valid codes with something in them. */
  lemma AcceptedIffEncoded(lib: Library, b: seq<byte>, snapshot: Snapshot)
    ensures Decoded(lib, b) == Ok(snapshot) <==>
      if snapshot.None? then b == Encoded(None)
      else exists raw :: Carries(lib, b, raw, snapshot.value)
  {
    if Decoded(lib, b).Ok? {
      AcceptedIsEncoded(lib, b);
      if b[5] == 1 {
        CleanIsCore(lib, Utf8.Decode(b[HEADER..]), Clean(lib, Utf8.Decode(b[HEADER..])));
        assert Carries(lib, b, b[HEADER..], Decoded(lib, b).snapshot.value);
      }
    }
    if snapshot.None? && b == Encoded(None) {
      Layout(None);
    }
    if snapshot.Some? {
      forall raw | Carries(lib, b, raw, snapshot.value)
        ensures Decoded(lib, b) == Ok(snapshot)
      {
        Layout(Some(raw));
        var core :| Normalises(lib, Utf8.Decode(raw), core) && snapshot.value == Utf8.Encode(core);
        CleanIsCore(lib, Utf8.Decode(raw), core);
        NonEmpty(lib, raw);
      }
    }
  }

  /** Which problem is reported: the first of the header that is wrong, then the length, then
      the text. */
  lemma RejectedFor(lib: Library, b: seq<byte>)
    ensures var r := Decoded(lib, b); var known := |b| >= HEADER && b[..4] == MAGIC;
      && (r == Err(UnsupportedVersion) <==> known && b[4] != VERSION)
      && (r == Err(InvalidState) <==> known && b[4] == VERSION && b[5] > 1)
      && (r == Err(TooLarge) <==>
            known && b[4] == VERSION && b[5] <= 1 && FromBigEndian(b[6..HEADER]) > MAX_CODE)
      && (r == Err(InvalidUtf8) <==>
            exists raw :: 0 < |raw| <= MAX_CODE && b == Encoded(Some(raw)) && !Utf8.Valid(raw))
  {
    var r := Decoded(lib, b);
    if r == Err(InvalidUtf8) {
      var raw := b[HEADER..];
      BigEndianUnique(b[6..HEADER], ToBigEndian(|raw|));
      assert b == b[..4] + [b[4], b[5]] + b[6..HEADER] + raw;
      assert b == Encoded(Some(raw));
    }
    forall raw | 0 < |raw| <= MAX_CODE && b == Encoded(Some(raw)) && !Utf8.Valid(raw)
      ensures r == Err(InvalidUtf8)
    {
      Layout(Some(raw));
    }
  }

  /** A valid code is rejected if and only if there is nothing in it but spaces, and a mark. */
  lemma BlankIsMalformed(lib: Library, raw: seq<byte>)
    requires 0 < |raw| <= MAX_CODE && Utf8.Valid(raw)
    ensures Decoded(lib, Encoded(Some(raw))) == Err(Malformed) <==> Normalises(lib, Utf8.Decode(raw), [])
    ensures Decoded(lib, Encoded(Some(raw))).Ok? <==> !Normalises(lib, Utf8.Decode(raw), [])
  {
    ValidIsCleaned(lib, raw);
    CleanIsCore(lib, Utf8.Decode(raw), []);
  }

  lemma ValidIsCleaned(lib: Library, raw: seq<byte>)
    requires 0 < |raw| <= MAX_CODE && Utf8.Valid(raw)
    ensures var clean := Clean(lib, Utf8.Decode(raw));
      Decoded(lib, Encoded(Some(raw))) == if clean == [] then Err(Malformed) else Ok(Some(Utf8.Encode(clean)))
  {
    Layout(Some(raw));
    Utf8.DecodeEncode(Clean(lib, Utf8.Decode(raw)));
  }

  lemma NonEmpty(lib: Library, raw: seq<byte>)
    requires Utf8.Valid(raw) && Utf8.Encode(Clean(lib, Utf8.Decode(raw))) != []
    ensures raw != []
  {
    CleanIsTrimmed(lib, Utf8.Decode(raw));
  }

  /** The codes that come back as they went in. */
  ghost predicate Portable(lib: Library, code: seq<byte>) {
    0 < |code| <= MAX_CODE && Utf8.Valid(code)
    && Trimmed(lib, Utf8.Decode(code)) && !Marked(lib, Utf8.Decode(code))
  }

  /** `decode(encode(s)) == s` for absent codes and for exactly the portable ones. */
  lemma RoundTrip(lib: Library, snapshot: Snapshot)
    ensures Decoded(lib, Encoded(snapshot)) == Ok(snapshot) <==> snapshot.None? || Portable(lib, snapshot.value)
  {
    if snapshot.Some? && |snapshot.value| > MAX_CODE {
      assert Encoded(snapshot) == [];
    } else {
      Layout(snapshot);
      if snapshot.Some? && Utf8.Valid(snapshot.value) {
        var text := Utf8.Decode(snapshot.value);
        CleanFixed(lib, text);
        Utf8.DecodeEncode(Clean(lib, text));
      }
    }
  }

  /** What was decoded encodes to something that decodes to it again, unless the text begins
      with a byte order mark that reading would drop once more. */
  lemma DecodedIsStable(lib: Library, b: seq<byte>, snapshot: Snapshot)
    requires Decoded(lib, b) == Ok(snapshot)
    ensures snapshot.Some? ==> Utf8.Valid(snapshot.value)
    ensures Decoded(lib, Encoded(snapshot)) == Ok(snapshot) <==>
      snapshot.None? || !Marked(lib, Utf8.Decode(snapshot.value))
  {
    RoundTrip(lib, snapshot);
    if snapshot.Some? {
      var text := Utf8.Decode(b[HEADER..]);
      CleanIsTrimmed(lib, text);
      Utf8.DecodeEncode(Clean(lib, text));
    }
  }

  /** With a library that drops marks, two of them are lost one reading at a time. */
  lemma MarksAreLostOneByOne(lib: Library)
    requires lib.dropsMark && !lib.space(MARK) && !lib.space(0x41)
    ensures var once := Utf8.Encode([MARK, 0x41]);
      Decoded(lib, Encoded(Some(Utf8.Encode([MARK, MARK, 0x41])))) == Ok(Some(once))
      && Decoded(lib, Encoded(Some(once))) != Ok(Some(once))
  {
    var twice: Utf8.Text := [MARK, MARK, 0x41];
    var once: Utf8.Text := [MARK, 0x41];
    Utf8.DecodeEncode(twice);
    Utf8.DecodeEncode(once);
    assert Clean(lib, twice) == once;
    FlattenPrepend(Utf8.Code, MARK, once);
    FlattenPrepend(Utf8.Code, MARK, [0x41]);
    assert Utf8.Encode([0x41]) == Utf8.Code(0x41) == [0x41];
    Layout(Some(Utf8.Encode(twice)));
    RoundTrip(lib, Some(Utf8.Encode(once)));
  }
}
