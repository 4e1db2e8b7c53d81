/**
  The configuration package: one JSON object with a format, a version, a public section and
  an optional sensitive one. The JSON library is a parameter: reading a text into a syntax
  tree, unescaping a string, and the number a token stands for.
*/
module PackageCodec {
  import opened Bytes
  import opened Crash
  import opened JsonScan
  import opened JsonAgreement

  const MAX_PACKAGE := 4 * 1024 * 1024
  const FORMAT: seq<byte> := [102, 111, 114, 109, 97, 116]  // format
  const PUBLIC: seq<byte> := [112, 117, 98, 108, 105, 99]  // public
  const SENSITIVE: seq<byte> := [115, 101, 110, 115, 105, 116, 105, 118, 101]  // sensitive
  const APPLICATION: seq<byte> := [105, 110, 112, 117, 116, 108, 101, 97, 112]  // inputleap
  const CONFIG: seq<byte> := [45, 99, 111, 110, 102, 105, 103]  // -config
  const URATION: seq<byte> := [117, 114, 97, 116, 105, 111, 110]  // uration
  const FORMAT_VALUE: seq<byte> := APPLICATION + (CONFIG + URATION)

  datatype Library = Library(parse: seq<byte> -> Option<Value>, unescape: Unescape, number: seq<byte> -> Option<real>)

  /** The sections as syntax trees. */
  datatype Package = Package(public: Value, sensitive: Option<Value>)

  datatype Problem =
    | TooLarge | MalformedJson | RootNotObject | DuplicateField | UnknownField | MissingField
    | UnsupportedFormat | InvalidVersion | UnsupportedVersion | InvalidSection

  datatype Result = Ok(package: Package) | Err(problem: Problem)

  // ---------------------------------------------------------------------------------------
  // The codec

  function Plain(key: seq<byte>, value: Value, more: Members): Members {
    Member([], key, [], [], value, [], more)
  }

  /** The root object, its members in the order of their names. */
  function Tree(p: Package): Value {
    var rest := if p.sensitive.Some? then Plain(SENSITIVE, p.sensitive.value, NoMembers) else NoMembers;
    Object([], Plain(FORMAT, Text(FORMAT_VALUE), Plain(PUBLIC, p.public, Plain(VERSION_KEY, Scalar(ONE), rest))))
  }

  function Encode(p: Package): seq<byte> {
    Print(Tree(p))
  }

  /** A member of the root by its name. */
  function Get(lib: Library, ms: Members, name: Name): Option<Value> {
    var found := Lookup(ms, name, lib.unescape);
    if found.Some? && found.value.Member? then Some(found.value.value) else None
  }

  predicate Known(lib: Library, ms: Members) {
    forall i :: 0 <= i < |Names(ms, lib.unescape)| ==>
      Names(ms, lib.unescape)[i] in {FORMAT, VERSION_KEY, PUBLIC, SENSITIVE}
  }

  /** What the decoder says of a root object once the scan has found no repetition. */
  function Examine(lib: Library, ms: Members, token: Option<seq<byte>>): Result {
    var format, version := Get(lib, ms, FORMAT), Get(lib, ms, VERSION_KEY);
    var public, sensitive := Get(lib, ms, PUBLIC), Get(lib, ms, SENSITIVE);
    if !Known(lib, ms) then Err(UnknownField)
    else if format.None? || version.None? || public.None? then Err(MissingField)
    else if !format.value.Text? || lib.unescape(Quoted(format.value.body)) != FORMAT_VALUE then Err(UnsupportedFormat)
    else if !version.value.Scalar? || lib.number(version.value.token).None? then Err(InvalidVersion)
    else
      var number := lib.number(version.value.token).value;
      if number.Floor as real != number || number < 1.0 then Err(InvalidVersion)
      else if number > 1.0 then Err(UnsupportedVersion)
      else if token != Some(ONE) then Err(InvalidVersion)
      else if !public.value.Object? || (sensitive.Some? && !sensitive.value.Object?) then Err(InvalidSection)
      else Ok(Package(public.value, sensitive))
  }

  function Decoded(lib: Library, encoded: seq<byte>): Result {
    if |encoded| > MAX_PACKAGE then Err(TooLarge)
    else if lib.parse(encoded).None? then Err(MalformedJson)
    else
      var root := lib.parse(encoded).value;
      if !root.Object? then Err(RootNotObject)
      else
        var scan := ScanRest(encoded, START, lib.unescape);
        if scan.Duplicate? then Err(DuplicateField) else Examine(lib, root.members, scan.version)
  }

  /** `decode` */
  method Decode(lib: Library, encoded: seq<byte>) returns (r: Result)
    ensures r == Decoded(lib, encoded)
  {
    if |encoded| > MAX_PACKAGE {
      return Err(TooLarge);
    }
    var document := lib.parse(encoded);
    if document.None? {
      return Err(MalformedJson);
    }
    if !document.value.Object? {
      return Err(RootNotObject);
    }
    var scan := ScanRoot(encoded, lib.unescape);
    return if scan.Duplicate? then Err(DuplicateField) else Examine(lib, document.value.members, scan.version);
  }

  // ---------------------------------------------------------------------------------------
  // What is accepted

  /** No names but the four. */
  predicate Expected(names: seq<Name>) {
    forall name <- names :: name == FORMAT || name == VERSION_KEY || name == PUBLIC || name == SENSITIVE
  }

  lemma KnownIsExpected(lib: Library, ms: Members)
    ensures Known(lib, ms) <==> Expected(Names(ms, lib.unescape))
  {
    var names := Names(ms, lib.unescape);
    if Expected(names) {
      forall i | 0 <= i < |names| ensures names[i] in {FORMAT, VERSION_KEY, PUBLIC, SENSITIVE} {
        assert names[i] in names;
      }
    }
  }

  /** The package that a syntax tree stands for, told without the scanner: no object at any
      depth repeats a name, and the four members are as they must be. */
  predicate Means(lib: Library, root: Value, p: Package) {
    root.Object? && !Repeats(root, lib.unescape) && Expected(Names(root.members, lib.unescape))
    && Get(lib, root.members, VERSION_KEY) == Some(Scalar(ONE))
    && Get(lib, root.members, PUBLIC) == Some(p.public) && p.public.Object?
    && Get(lib, root.members, SENSITIVE) == p.sensitive && (p.sensitive.Some? ==> p.sensitive.value.Object?)
    && var format := Get(lib, root.members, FORMAT);
    format.Some? && format.value.Text? && lib.unescape(Quoted(format.value.body)) == FORMAT_VALUE
  }

  /** Every well-formed text within the size limit is accepted, as `p`, if and only if its
      tree means `p`. */
  lemma AcceptedIff(lib: Library, lead: seq<byte>, root: Value, trail: seq<byte>, p: Package)
    requires Blank(lead) && Blank(trail) && WellFormed(root) && lib.number(ONE) == Some(1.0)
    requires |lead + Print(root) + trail| <= MAX_PACKAGE && lib.parse(lead + Print(root) + trail) == Some(root)
    ensures Decoded(lib, lead + Print(root) + trail) == Ok(p) <==> Means(lib, root, p)
  {
    if root.Object? {
      ScannerAgrees(lead, root, trail, lib.unescape);
      KnownIsExpected(lib, root.members);
      if !Repeats(root, lib.unescape) {
        VersionIsOne(root, lib.unescape);
      }
    }
  }

  function Values(ms: Members): seq<Value> {
    if ms.NoMembers? then [] else [ms.value] + Values(ms.more)
  }

  /** A member is found if and only if there is one of that name, and what is found is its value. */
  lemma {:induction false} GetMeans(lib: Library, ms: Members, name: Name)
    ensures |Values(ms)| == |Names(ms, lib.unescape)|
    ensures Get(lib, ms, name).Some? <==> name in Names(ms, lib.unescape)
    ensures Get(lib, ms, name).Some? ==>
      exists i :: 0 <= i < |Values(ms)| && Names(ms, lib.unescape)[i] == name
                  && Values(ms)[i] == Get(lib, ms, name).value
  {
    if ms.Member? {
      GetMeans(lib, ms.more, name);
      var names, values := Names(ms.more, lib.unescape), Values(ms.more);
      assert Names(ms, lib.unescape) == [lib.unescape(Quoted(ms.key))] + names && Values(ms) == [ms.value] + values;
      if lib.unescape(Quoted(ms.key)) == name {
        assert Values(ms)[0] == ms.value;
      } else if Get(lib, ms.more, name).Some? {
        var i :| 0 <= i < |values| && names[i] == name && values[i] == Get(lib, ms.more, name).value;
        assert Names(ms, lib.unescape)[i + 1] == name && Values(ms)[i + 1] == values[i];
      }
    }
  }

  /** A version that is a whole number above 1. */
  predicate Later(lib: Library, version: Option<Value>) {
    version.Some? && version.value.Scalar? && lib.number(version.value.token).Some?
    && var number := lib.number(version.value.token).value; number > 1.0 && number.Floor as real == number
  }

  predicate Proper(lib: Library, format: Option<Value>) {
    format.Some? && format.value.Text? && lib.unescape(Quoted(format.value.body)) == FORMAT_VALUE
  }

  predicate Sectioned(lib: Library, ms: Members) {
    && Get(lib, ms, PUBLIC).Some? && Get(lib, ms, PUBLIC).value.Object?
    && (Get(lib, ms, SENSITIVE).Some? ==> Get(lib, ms, SENSITIVE).value.Object?)
  }

  /** Why a root without repetitions is rejected: the first of these that holds of its members. */
  ghost predicate Fault(lib: Library, ms: Members, problem: Problem) {
    var names := Names(ms, lib.unescape);
    if !Expected(names) then problem == UnknownField
    else if FORMAT !in names || VERSION_KEY !in names || PUBLIC !in names then problem == MissingField
    else if !Proper(lib, Get(lib, ms, FORMAT)) then problem == UnsupportedFormat
    else if Later(lib, Get(lib, ms, VERSION_KEY)) then problem == UnsupportedVersion
    else if Get(lib, ms, VERSION_KEY) != Some(Scalar(ONE)) then problem == InvalidVersion
    else problem == InvalidSection && !Sectioned(lib, ms)
  }

  lemma ExaminedFor(lib: Library, ms: Members, token: Option<seq<byte>>, problem: Problem)
    requires lib.number(ONE) == Some(1.0)
    requires token == Some(ONE) <==> Get(lib, ms, VERSION_KEY) == Some(Scalar(ONE))
    ensures Examine(lib, ms, token) == Err(problem) <==> Fault(lib, ms, problem)
  {
    KnownIsExpected(lib, ms);
    GetMeans(lib, ms, FORMAT);
    GetMeans(lib, ms, VERSION_KEY);
    GetMeans(lib, ms, PUBLIC);
  }

  /** Every well-formed text within the size limit that is rejected is rejected for the first
      fault of its tree, which is told without the scanner. */
  lemma RejectedFor(lib: Library, lead: seq<byte>, root: Value, trail: seq<byte>, problem: Problem)
    requires Blank(lead) && Blank(trail) && WellFormed(root) && lib.number(ONE) == Some(1.0)
    requires |lead + Print(root) + trail| <= MAX_PACKAGE && lib.parse(lead + Print(root) + trail) == Some(root)
    ensures Decoded(lib, lead + Print(root) + trail) == Err(problem) <==>
      if !root.Object? then problem == RootNotObject
      else if Repeats(root, lib.unescape) then problem == DuplicateField
      else Fault(lib, root.members, problem)
  {
    if root.Object? {
      ScannerAgrees(lead, root, trail, lib.unescape);
      if !Repeats(root, lib.unescape) {
        VersionIsOne(root, lib.unescape);
        ExaminedFor(lib, root.members, ScanRest(lead + Print(root) + trail, START, lib.unescape).version, problem);
      }
    }
  }

  /** What is rejected before it is looked at. */
  lemma RejectedUnread(lib: Library, encoded: seq<byte>)
    ensures Decoded(lib, encoded) == Err(TooLarge) <==> |encoded| > 4_194_304
    ensures Decoded(lib, encoded) == Err(MalformedJson) <==> |encoded| <= 4_194_304 && lib.parse(encoded).None?
  {
  }

  // ---------------------------------------------------------------------------------------
  // Round trip

  /** The library unescapes the names and the format of a package to themselves. */
  ghost predicate Faithful(lib: Library) {
    lib.number(ONE) == Some(1.0)
    && lib.unescape(Quoted(FORMAT)) == FORMAT && lib.unescape(Quoted(PUBLIC)) == PUBLIC
    && lib.unescape(Quoted(VERSION_KEY)) == VERSION_KEY && lib.unescape(Quoted(SENSITIVE)) == SENSITIVE
    && lib.unescape(Quoted(FORMAT_VALUE)) == FORMAT_VALUE
  }

  predicate Section(lib: Library, v: Value) {
    v.Object? && WellFormed(v) && !Repeats(v, lib.unescape)
  }

  /** One member more, with a name that was not there. */
  lemma PlainAdds(lib: Library, key: seq<byte>, value: Value, more: Members)
    requires lib.unescape(Quoted(key)) == key && key !in Names(more, lib.unescape)
             && Distinct(Names(more, lib.unescape))
    ensures var ms := Plain(key, value, more);
      Names(ms, lib.unescape) == [key] + Names(more, lib.unescape) && Distinct(Names(ms, lib.unescape))
      && Get(lib, ms, key) == Some(value)
      && (forall name :: name != key ==> Get(lib, ms, name) == Get(lib, more, name))
  {
  }

  lemma PlainKeeps(lib: Library, key: seq<byte>, value: Value, more: Members)
    requires Body(key) && WellFormed(value) && !Repeats(value, lib.unescape)
    requires WellFormedMembers(more) && !RepeatsInMembers(more, lib.unescape)
    ensures WellFormedMembers(Plain(key, value, more)) && !RepeatsInMembers(Plain(key, value, more), lib.unescape)
  {
  }

  predicate Unquoted(key: seq<byte>) {
    forall i :: 0 <= i < |key| ==> key[i] != QUOTE && key[i] != BACKSLASH
  }

  lemma {:induction false} UnquotedBody(key: seq<byte>)
    requires Unquoted(key)
    ensures Body(key)
  {
    if key != [] {
      UnquotedBody(key[1..]);
    }
  }

  /** Two parts without quotes or backslashes make a string body. */
  lemma JoinedBody(a: seq<byte>, b: seq<byte>)
    requires Unquoted(a) && Unquoted(b)
    ensures Unquoted(a + b) && Body(a + b)
  {
    UnquotedBody(a + b);
  }

  predicate Selfsame(lib: Library, key: seq<byte>) {
    Body(key) && lib.unescape(Quoted(key)) == key
  }

  /** The members of a root with any four distinct names, and any sound values. */
  lemma FourMembers(lib: Library, f: seq<byte>, u: seq<byte>, v: seq<byte>, s: seq<byte>, vf: Value, vu: Value,
                    vv: Value, vs: Option<Value>)
    requires Selfsame(lib, f) && Selfsame(lib, u) && Selfsame(lib, v) && Selfsame(lib, s)
    requires f != u && f != v && f != s && u != v && u != s && v != s
    ensures var m1 := if vs.Some? then Plain(s, vs.value, NoMembers) else NoMembers;
      var ms := Plain(f, vf, Plain(u, vu, Plain(v, vv, m1)));
      Distinct(Names(ms, lib.unescape))
      && (forall i :: 0 <= i < |Names(ms, lib.unescape)| ==> Names(ms, lib.unescape)[i] in {f, v, u, s})
      && Get(lib, ms, f) == Some(vf) && Get(lib, ms, u) == Some(vu) && Get(lib, ms, v) == Some(vv)
      && Get(lib, ms, s) == vs
  {
    if vs.Some? {
      PlainAdds(lib, s, vs.value, NoMembers);
    }
    var m1 := if vs.Some? then Plain(s, vs.value, NoMembers) else NoMembers;
    PlainAdds(lib, v, vv, m1);
    PlainAdds(lib, u, vu, Plain(v, vv, m1));
    PlainAdds(lib, f, vf, Plain(u, vu, Plain(v, vv, m1)));
  }

  lemma TreeKeeps(lib: Library, p: Package)
    requires Selfsame(lib, FORMAT) && Selfsame(lib, PUBLIC) && Selfsame(lib, VERSION_KEY) && Selfsame(lib, SENSITIVE)
    requires Body(FORMAT_VALUE) && Section(lib, p.public) && (p.sensitive.Some? ==> Section(lib, p.sensitive.value))
    ensures WellFormed(Tree(p)) && !RepeatsInMembers(Tree(p).members, lib.unescape)
  {
    if p.sensitive.Some? {
      PlainKeeps(lib, SENSITIVE, p.sensitive.value, NoMembers);
    }
    var m1 := if p.sensitive.Some? then Plain(SENSITIVE, p.sensitive.value, NoMembers) else NoMembers;
    PlainKeeps(lib, VERSION_KEY, Scalar(ONE), m1);
    PlainKeeps(lib, PUBLIC, p.public, Plain(VERSION_KEY, Scalar(ONE), m1));
    PlainKeeps(lib, FORMAT, Text(FORMAT_VALUE), Plain(PUBLIC, p.public, Plain(VERSION_KEY, Scalar(ONE), m1)));
  }

  lemma KeysDiffer()
    ensures FORMAT != PUBLIC && FORMAT != VERSION_KEY && FORMAT != SENSITIVE
    ensures PUBLIC != VERSION_KEY && PUBLIC != SENSITIVE && VERSION_KEY != SENSITIVE
  {
    assert FORMAT[0] != PUBLIC[0];
    assert |FORMAT| == 6 && |PUBLIC| == 6 && |VERSION_KEY| == 13 && |SENSITIVE| == 9;
  }

  lemma FormatBody()
    ensures Body(FORMAT)
  {
    UnquotedBody(FORMAT);
  }

  lemma PublicBody()
    ensures Body(PUBLIC)
  {
    UnquotedBody(PUBLIC);
  }

  lemma SensitiveBody()
    ensures Body(SENSITIVE)
  {
    UnquotedBody(SENSITIVE);
  }

  lemma VersionBody()
    ensures Body(VERSION_KEY)
  {
    JoinedBody(SCHEMA, VERSION_WORD);
  }

  lemma FormatValueBody()
    ensures Body(FORMAT_VALUE)
  {
    JoinedBody(CONFIG, URATION);
    JoinedBody(APPLICATION, CONFIG + URATION);
  }

  /** The tree that is written means the package. */
  lemma TreeMeans(lib: Library, p: Package)
    requires Faithful(lib) && Section(lib, p.public) && (p.sensitive.Some? ==> Section(lib, p.sensitive.value))
    ensures WellFormed(Tree(p)) && Means(lib, Tree(p), p)
  {
    FormatBody();
    PublicBody();
    SensitiveBody();
    VersionBody();
    FormatValueBody();
    KeysDiffer();
    FourMembers(lib, FORMAT, PUBLIC, VERSION_KEY, SENSITIVE, Text(FORMAT_VALUE), p.public, Scalar(ONE), p.sensitive);
    TreeKeeps(lib, p);
    KnownIsExpected(lib, Tree(p).members);
  }

  lemma Bare(text: seq<byte>)
    ensures [] + text + [] == text
  {
  }

  /** What is written is read back as the same package, unless it is over the size limit. */
  lemma RoundTrip(lib: Library, p: Package)
    requires Faithful(lib) && Section(lib, p.public) && (p.sensitive.Some? ==> Section(lib, p.sensitive.value))
    requires lib.parse(Encode(p)) == Some(Tree(p))
    ensures Decoded(lib, Encode(p)) == if |Encode(p)| <= MAX_PACKAGE then Ok(p) else Err(TooLarge)
  {
    TreeMeans(lib, p);
    if |Encode(p)| <= MAX_PACKAGE {
      Bare(Print(Tree(p)));
      AcceptedIff(lib, [], Tree(p), [], p);
    }
  }
}
