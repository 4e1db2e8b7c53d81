/**
  Agreement of the one-pass scanner with the recursive definition, on every JSON text whose
  root is an object.
*/
module JsonAgreement {
  import opened Bytes
  import opened Crash
  import opened JsonScan

  /** Concrete syntax. Strings are kept by their raw body, everything else that is not a
      container by its raw token; white space is kept where the grammar allows it. */
  datatype Value =
    | Text(body: seq<byte>)
    | Scalar(token: seq<byte>)
    | Array(gap: seq<byte>, items: Items)
    | Object(gap: seq<byte>, members: Members)

  datatype Items = NoItems | Item(before: seq<byte>, value: Value, after: seq<byte>, more: Items)

  datatype Members = NoMembers | Member(before: seq<byte>, key: seq<byte>, mid: seq<byte>, lead: seq<byte>,
                                        value: Value, after: seq<byte>, more: Members)

  predicate Blank(text: seq<byte>) {
    forall i :: 0 <= i < |text| ==> text[i] == 32 || text[i] == 9 || text[i] == 10 || text[i] == 13
  }

  predicate Inert(b: byte) {
    b != QUOTE && b != COMMA && b != COLON && b != OPEN_ARRAY && b != CLOSE_ARRAY && b != OPEN_OBJECT
    && b != CLOSE_OBJECT
  }

  /** A string body: no bare quote, and a byte after every backslash. */
  predicate Body(text: seq<byte>) {
    text == [] ||
    if text[0] == BACKSLASH then |text| >= 2 && Body(text[2..])
    else text[0] != QUOTE && Body(text[1..])
  }

  predicate WellFormed(v: Value) {
    match v
    case Text(body) => Body(body)
    case Scalar(token) => token != [] && forall i :: 0 <= i < |token| ==> Inert(token[i]) && !IsSpace(token[i])
    case Array(gap, items) => Blank(gap) && WellFormedItems(items)
    case Object(gap, members) => Blank(gap) && WellFormedMembers(members)
  }

  predicate WellFormedItems(items: Items) {
    items.Item? ==> Blank(items.before) && Blank(items.after) && WellFormed(items.value) && WellFormedItems(items.more)
  }

  predicate WellFormedMembers(ms: Members) {
    ms.Member? ==>
      && Blank(ms.before) && Body(ms.key) && Blank(ms.mid) && Blank(ms.lead) && Blank(ms.after)
      && WellFormed(ms.value) && WellFormedMembers(ms.more)
  }

  function Quoted(body: seq<byte>): seq<byte> {
    [QUOTE] + body + [QUOTE]
  }

  function Print(v: Value): seq<byte> {
    match v
    case Text(body) => Quoted(body)
    case Scalar(token) => token
    case Array(gap, items) => [OPEN_ARRAY] + (if items.NoItems? then gap else PrintItems(items)) + [CLOSE_ARRAY]
    case Object(gap, members) =>
      [OPEN_OBJECT] + (if members.NoMembers? then gap else PrintMembers(members)) + [CLOSE_OBJECT]
  }

  function PrintItems(items: Items): seq<byte>
    requires items.Item?
  {
    items.before + Print(items.value) + items.after
    + (if items.more.NoItems? then [] else [COMMA] + PrintItems(items.more))
  }

  function PrintMembers(ms: Members): seq<byte>
    requires ms.Member?
  {
    ms.before + Quoted(ms.key) + ms.mid + [COLON] + ms.lead + Print(ms.value) + ms.after
    + (if ms.more.NoMembers? then [] else [COMMA] + PrintMembers(ms.more))
  }

  /** The unescaped member names of one object, in order. */
  function Names(ms: Members, unescape: Unescape): seq<Name> {
    if ms.NoMembers? then [] else [unescape(Quoted(ms.key))] + Names(ms.more, unescape)
  }

  predicate Distinct(names: seq<Name>) {
    forall i, j :: 0 <= i < j < |names| ==> names[i] != names[j]
  }

  /** Some object at some depth has two members with equal names. */
  predicate Repeats(v: Value, unescape: Unescape) {
    match v
    case Text(_) => false
    case Scalar(_) => false
    case Array(_, items) => RepeatsInItems(items, unescape)
    case Object(_, members) => !Distinct(Names(members, unescape)) || RepeatsInMembers(members, unescape)
  }

  predicate RepeatsInItems(items: Items, unescape: Unescape) {
    items.Item? && (Repeats(items.value, unescape) || RepeatsInItems(items.more, unescape))
  }

  predicate RepeatsInMembers(ms: Members, unescape: Unescape) {
    ms.Member? && (Repeats(ms.value, unescape) || RepeatsInMembers(ms.more, unescape))
  }

  /** As `Repeats` for the rest of an object whose earlier names are `seen`. */
  predicate RepeatsFrom(ms: Members, seen: set<Name>, unescape: Unescape) {
    ms.Member? &&
    var name := unescape(Quoted(ms.key));
    name in seen || Repeats(ms.value, unescape) || RepeatsFrom(ms.more, seen + {name}, unescape)
  }

  lemma {:induction false} RepeatsFromMeans(ms: Members, seen: set<Name>, unescape: Unescape)
    ensures RepeatsFrom(ms, seen, unescape) <==>
            || (exists name :: name in seen && name in Names(ms, unescape))
            || !Distinct(Names(ms, unescape)) || RepeatsInMembers(ms, unescape)
  {
    if ms.Member? {
      var name, tail := unescape(Quoted(ms.key)), Names(ms.more, unescape);
      var names := Names(ms, unescape);
      RepeatsFromMeans(ms.more, seen + {name}, unescape);
      assert names == [name] + tail && names[1..] == tail;
      if name in seen {
        assert names[0] == name;
      } else if name in tail {
        var k :| 0 <= k < |tail| && tail[k] == name;
        assert names[0] == names[k + 1];
      } else {
        assert Distinct(names) <==> Distinct(tail) by {
          assert forall i :: 0 <= i < |tail| ==> names[i + 1] == tail[i];
        }
        assert forall other :: other in seen && other in names <==> other in seen && other in tail;
      }
    }
  }

  /** Bytes outside strings that the scanner passes over. */
  lemma {:induction false} ScanInert(text: seq<byte>, tail: seq<byte>, s: State, unescape: Unescape)
    requires s.token.None? && forall i :: 0 <= i < |text| ==> Inert(text[i])
    ensures ScanRest(text + tail, s, unescape) == ScanRest(tail, s, unescape)
  {
    if text == [] {
      assert text + tail == tail;
    } else {
      assert (text + tail)[1..] == text[1..] + tail;
      ScanInert(text[1..], tail, s, unescape);
    }
  }

  /** The body of an open string is collected up to its closing quote. */
  lemma {:induction false} ScanBody(body: seq<byte>, tail: seq<byte>, s: State, unescape: Unescape)
    requires Body(body) && s.token.Some? && !s.escaped
    ensures ScanRest(body + [QUOTE] + tail, s, unescape) ==
            var closed := CloseString(s.token.value + body + [QUOTE], s, unescape);
            if closed.None? then Duplicate else ScanRest(tail, closed.value, unescape)
    decreases |body|
  {
    var text := body + [QUOTE] + tail;
    if body == [] {
      assert text[1..] == tail && s.token.value + body + [QUOTE] == s.token.value + [QUOTE];
    } else if body[0] == BACKSLASH {
      var s1 := s.(escaped := true, token := Some(s.token.value + [body[0]]));
      var s2 := s.(token := Some(s.token.value + body[..2]));
      assert text[1..][1..] == body[2..] + [QUOTE] + tail && text[1..][0] == body[1];
      assert s.token.value + [body[0]] + [body[1]] == s.token.value + body[..2];
      assert ScanRest(text, s, unescape) == ScanRest(text[1..], s1, unescape) == ScanRest(text[1..][1..], s2, unescape);
      ScanBody(body[2..], tail, s2, unescape);
      assert s.token.value + body[..2] + body[2..] == s.token.value + body;
      var raw := s.token.value + body + [QUOTE];
      assert CloseString(raw, s, unescape) == CloseString(raw, s2, unescape);
    } else {
      var s1 := s.(token := Some(s.token.value + [body[0]]));
      assert text[1..] == body[1..] + [QUOTE] + tail;
      ScanBody(body[1..], tail, s1, unescape);
      assert s.token.value + [body[0]] + body[1..] == s.token.value + body;
      var raw := s.token.value + body + [QUOTE];
      assert CloseString(raw, s, unescape) == CloseString(raw, s1, unescape);
    }
  }

  lemma ScanQuoted(body: seq<byte>, tail: seq<byte>, s: State, unescape: Unescape)
    requires Body(body) && s.token.None? && !s.escaped
    ensures ScanRest(Quoted(body) + tail, s, unescape) ==
            var closed := CloseString(Quoted(body), s, unescape);
            if closed.None? then Duplicate else ScanRest(tail, closed.value, unescape)
  {
    var text, inside := Quoted(body) + tail, s.(token := Some([QUOTE]));
    assert text[1..] == body + [QUOTE] + tail;
    ScanBody(body, tail, inside, unescape);
    assert CloseString(Quoted(body), s, unescape) == CloseString(Quoted(body), inside, unescape);
  }

  /** Not inside a string, and not where an object waits for a member name. */
  ghost predicate AtValue(s: State) {
    s.token.None? && !s.escaped && s.contexts != [] && !(Top(s.contexts).isObject && Top(s.contexts).expectingKey)
  }

  ghost predicate AtKey(s: State) {
    s.token.None? && !s.escaped && s.contexts != [] && Top(s.contexts).isObject && Top(s.contexts).expectingKey
  }

  ghost predicate AtItem(s: State) {
    s.token.None? && !s.escaped && s.contexts != [] && !Top(s.contexts).isObject
  }

  /** One byte outside a string. */
  lemma ScanByte(b: byte, rest: seq<byte>, s: State, unescape: Unescape)
    requires s.token.None?
    ensures ScanRest([b] + rest, s, unescape) == ScanRest(rest, Outside(b, rest, s), unescape)
  {
    assert ([b] + rest)[1..] == rest;
  }

  /** Scanning a value inside the root reports its repetition, or passes over it unchanged. */
  lemma {:induction false} ScanValue(v: Value, tail: seq<byte>, s: State, unescape: Unescape)
    requires WellFormed(v) && AtValue(s)
    ensures ScanRest(Print(v) + tail, s, unescape) ==
            if Repeats(v, unescape) then Duplicate else ScanRest(tail, s, unescape)
    decreases v, 2
  {
    match v
    case Text(body) =>
      ScanQuoted(body, tail, s, unescape);
    case Scalar(token) =>
      ScanInert(token, tail, s, unescape);
    case Array(gap, items) =>
      ScanArray(v, tail, s, unescape);
    case Object(gap, members) =>
      ScanObject(v, tail, s, unescape);
  }

  lemma {:induction false} ScanArray(v: Value, tail: seq<byte>, s: State, unescape: Unescape)
    requires v.Array? && WellFormed(v) && AtValue(s)
    ensures ScanRest(Print(v) + tail, s, unescape) ==
            if Repeats(v, unescape) then Duplicate else ScanRest(tail, s, unescape)
    decreases v, 1
  {
    var inner := s.(contexts := s.contexts + [Context(false, false, {}, [])]);
    var end := [CLOSE_ARRAY] + tail;
    var content := if v.items.NoItems? then v.gap else PrintItems(v.items);
    assert Print(v) + tail == [OPEN_ARRAY] + (content + end);
    ScanByte(OPEN_ARRAY, content + end, s, unescape);
    if v.items.NoItems? {
      ScanInert(v.gap, end, inner, unescape);
    } else {
      ScanItems(v.items, end, inner, unescape);
    }
    ScanByte(CLOSE_ARRAY, tail, inner, unescape);
    assert Pop(inner.contexts) == s.contexts;
  }

  lemma {:induction false} ScanItems(items: Items, tail: seq<byte>, s: State, unescape: Unescape)
    requires items.Item? && WellFormedItems(items) && AtItem(s)
    ensures ScanRest(PrintItems(items) + tail, s, unescape) ==
            if RepeatsInItems(items, unescape) then Duplicate else ScanRest(tail, s, unescape)
    decreases items, 1
  {
    var rest := (if items.more.NoItems? then [] else [COMMA] + PrintItems(items.more)) + tail;
    assert PrintItems(items) + tail == items.before + (Print(items.value) + (items.after + rest));
    ScanItem(items, rest, s, unescape);
    if items.more.Item? {
      assert rest == [COMMA] + (PrintItems(items.more) + tail);
      ScanNextItem(items, tail, s, unescape);
    } else {
      assert rest == tail;
    }
  }

  lemma {:induction false} ScanItem(items: Items, rest: seq<byte>, s: State, unescape: Unescape)
    requires items.Item? && WellFormedItems(items) && AtItem(s)
    ensures ScanRest(items.before + (Print(items.value) + (items.after + rest)), s, unescape) ==
            if Repeats(items.value, unescape) then Duplicate else ScanRest(rest, s, unescape)
    decreases items, 0
  {
    ScanInert(items.before, Print(items.value) + (items.after + rest), s, unescape);
    ScanValue(items.value, items.after + rest, s, unescape);
    ScanInert(items.after, rest, s, unescape);
  }

  lemma {:induction false} ScanNextItem(items: Items, tail: seq<byte>, s: State, unescape: Unescape)
    requires items.Item? && items.more.Item? && WellFormedItems(items) && AtItem(s)
    ensures ScanRest([COMMA] + (PrintItems(items.more) + tail), s, unescape) ==
            if RepeatsInItems(items.more, unescape) then Duplicate else ScanRest(tail, s, unescape)
    decreases items, 0
  {
    ScanByte(COMMA, PrintItems(items.more) + tail, s, unescape);
    ScanItems(items.more, tail, s, unescape);
  }

  /** An object in any position, the root included; only the root's version member is recorded. */
  lemma {:induction false} ScanContainer(v: Value, tail: seq<byte>, s: State, unescape: Unescape)
    requires v.Object? && WellFormed(v) && s.token.None? && !s.escaped
    ensures ScanRest(Print(v) + tail, s, unescape) ==
            if Repeats(v, unescape) then Duplicate
            else ScanRest(tail, s.(version := RootVersion(v.members, |s.contexts| == 0, s.version, unescape)), unescape)
    decreases v, 0
  {
    var inner := s.(contexts := s.contexts + [Context(true, true, {}, [])]);
    var end := [CLOSE_OBJECT] + tail;
    var content := if v.members.NoMembers? then v.gap else PrintMembers(v.members);
    assert Print(v) + tail == [OPEN_OBJECT] + (content + end);
    ScanByte(OPEN_OBJECT, content + end, s, unescape);
    RepeatsFromMeans(v.members, {}, unescape);
    assert Pop(inner.contexts) == s.contexts;
    if v.members.NoMembers? {
      ScanInert(v.gap, end, inner, unescape);
      ScanByte(CLOSE_OBJECT, tail, inner, unescape);
    } else {
      ScanMembers(v.members, tail, inner, unescape);
    }
  }

  lemma {:induction false} ScanObject(v: Value, tail: seq<byte>, s: State, unescape: Unescape)
    requires v.Object? && WellFormed(v) && AtValue(s)
    ensures ScanRest(Print(v) + tail, s, unescape) ==
            if Repeats(v, unescape) then Duplicate else ScanRest(tail, s, unescape)
    decreases v, 1
  {
    ScanContainer(v, tail, s, unescape);
    NestedVersion(v.members, s.version, unescape);
  }

  /** The members of an object and its closing brace. */
  lemma {:induction false} ScanMembers(ms: Members, tail: seq<byte>, s: State, unescape: Unescape)
    requires ms.Member? && WellFormedMembers(ms) && AtKey(s)
    ensures ScanRest(PrintMembers(ms) + ([CLOSE_OBJECT] + tail), s, unescape) ==
            if RepeatsFrom(ms, Top(s.contexts).keys, unescape) then Duplicate
            else ScanRest(tail, s.(contexts := Pop(s.contexts),
                                   version := RootVersion(ms, |s.contexts| == 1, s.version, unescape)), unescape)
    decreases ms, 3
  {
    var text := AfterName(ms, tail);
    MembersText(ms, tail);
    ScanName(ms, text, s, unescape);
    var name := unescape(Quoted(ms.key));
    if name !in Top(s.contexts).keys {
      ScanAfterName(ms, tail, s, unescape);
    }
  }

  function AfterMember(ms: Members, tail: seq<byte>): seq<byte>
    requires ms.Member?
  {
    (if ms.more.NoMembers? then [] else [COMMA] + PrintMembers(ms.more)) + ([CLOSE_OBJECT] + tail)
  }

  function AfterName(ms: Members, tail: seq<byte>): seq<byte>
    requires ms.Member?
  {
    ms.mid + ([COLON] + (ms.lead + (Print(ms.value) + (ms.after + AfterMember(ms, tail)))))
  }

  lemma MembersText(ms: Members, tail: seq<byte>)
    requires ms.Member?
    ensures PrintMembers(ms) + ([CLOSE_OBJECT] + tail) == ms.before + (Quoted(ms.key) + AfterName(ms, tail))
  {
  }

  /** From a new member name to the end of the object. */
  lemma {:induction false} ScanAfterName(ms: Members, tail: seq<byte>, s: State, unescape: Unescape)
    requires ms.Member? && WellFormedMembers(ms) && AtKey(s) && unescape(Quoted(ms.key)) !in Top(s.contexts).keys
    ensures ScanRest(AfterName(ms, tail), Named(s, unescape(Quoted(ms.key))), unescape) ==
            if RepeatsFrom(ms, Top(s.contexts).keys, unescape) then Duplicate
            else ScanRest(tail, s.(contexts := Pop(s.contexts),
                                   version := RootVersion(ms, |s.contexts| == 1, s.version, unescape)), unescape)
    decreases ms, 2
  {
    var name := unescape(Quoted(ms.key));
    var named := Named(s, name);
    var version := if |s.contexts| == 1 && name == VERSION_KEY then Some(Head(ms.value, ms.after)) else s.version;
    ScanMemberValue(ms, AfterMember(ms, tail), named, unescape);
    if !Repeats(ms.value, unescape) {
      ScanMemberEnd(ms, tail, s, named.(version := version), unescape);
    }
  }

  /** The state after a member name. */
  function Named(s: State, name: Name): State
    requires s.contexts != []
  {
    var top := Top(s.contexts);
    s.(contexts := SetTop(s.contexts, top.(keys := top.keys + {name}, key := name, expectingKey := false)))
  }

  lemma ScanName(ms: Members, text: seq<byte>, s: State, unescape: Unescape)
    requires ms.Member? && WellFormedMembers(ms) && AtKey(s)
    ensures ScanRest(ms.before + (Quoted(ms.key) + text), s, unescape) ==
            var name := unescape(Quoted(ms.key));
            if name in Top(s.contexts).keys then Duplicate else ScanRest(text, Named(s, name), unescape)
  {
    ScanInert(ms.before, Quoted(ms.key) + text, s, unescape);
    ScanQuoted(ms.key, text, s, unescape);
  }

  /** From a member name to the byte that ends the member. */
  lemma {:induction false} ScanMemberValue(ms: Members, end: seq<byte>, s: State, unescape: Unescape)
    requires ms.Member? && WellFormedMembers(ms) && AtValue(s) && Top(s.contexts).isObject
    requires end != [] && (end[0] == COMMA || end[0] == CLOSE_OBJECT)
    ensures var version := if |s.contexts| == 1 && Top(s.contexts).key == VERSION_KEY
                           then Some(Head(ms.value, ms.after)) else s.version;
            ScanRest(ms.mid + ([COLON] + (ms.lead + (Print(ms.value) + (ms.after + end)))), s, unescape) ==
            if Repeats(ms.value, unescape) then Duplicate else ScanRest(end, s.(version := version), unescape)
    decreases ms, 0
  {
    var afterColon := ms.lead + (Print(ms.value) + (ms.after + end));
    ScanInert(ms.mid, [COLON] + afterColon, s, unescape);
    ScanByte(COLON, afterColon, s, unescape);
    HeadStops(ms, end);
    var valued := Outside(COLON, afterColon, s);
    ScanInert(ms.lead, Print(ms.value) + (ms.after + end), valued, unescape);
    ScanValue(ms.value, ms.after + end, valued, unescape);
    ScanInert(ms.after, end, valued, unescape);
  }

  /** From the end of a member to the end of its object. */
  lemma {:induction false} ScanMemberEnd(ms: Members, tail: seq<byte>, s: State, after: State, unescape: Unescape)
    requires ms.Member? && WellFormedMembers(ms) && AtKey(s) && after.token.None? && !after.escaped
    requires after.contexts == Named(s, unescape(Quoted(ms.key))).contexts
    ensures ScanRest(AfterMember(ms, tail), after, unescape) ==
            if RepeatsFrom(ms.more, Top(after.contexts).keys, unescape) then Duplicate
            else var version := RootVersion(ms.more, |s.contexts| == 1, after.version, unescape);
                 ScanRest(tail, after.(contexts := Pop(s.contexts), version := version), unescape)
    decreases ms, 1
  {
    if ms.more.Member? {
      var rest := PrintMembers(ms.more) + ([CLOSE_OBJECT] + tail);
      assert [COMMA] + PrintMembers(ms.more) + ([CLOSE_OBJECT] + tail) == [COMMA] + rest;
      ScanNextMember(ms, tail, s, after, unescape);
    } else {
      assert [] + ([CLOSE_OBJECT] + tail) == [CLOSE_OBJECT] + tail;
      ScanClose(tail, s, after, unescape);
    }
  }

  lemma ScanClose(tail: seq<byte>, s: State, after: State, unescape: Unescape)
    requires s.contexts != [] && after.token.None? && |after.contexts| == |s.contexts|
             && Pop(after.contexts) == Pop(s.contexts)
    ensures ScanRest([CLOSE_OBJECT] + tail, after, unescape) ==
            ScanRest(tail, after.(contexts := Pop(s.contexts)), unescape)
  {
    ScanByte(CLOSE_OBJECT, tail, after, unescape);
  }

  lemma {:induction false} ScanNextMember(ms: Members, tail: seq<byte>, s: State, after: State, unescape: Unescape)
    requires ms.Member? && ms.more.Member? && WellFormedMembers(ms) && AtKey(s) && after.token.None? && !after.escaped
    requires after.contexts == Named(s, unescape(Quoted(ms.key))).contexts
    ensures ScanRest([COMMA] + (PrintMembers(ms.more) + ([CLOSE_OBJECT] + tail)), after, unescape) ==
            if RepeatsFrom(ms.more, Top(after.contexts).keys, unescape) then Duplicate
            else var version := RootVersion(ms.more, |s.contexts| == 1, after.version, unescape);
                 ScanRest(tail, after.(contexts := Pop(s.contexts), version := version), unescape)
    decreases ms, 0
  {
    var rest := PrintMembers(ms.more) + ([CLOSE_OBJECT] + tail);
    ScanByte(COMMA, rest, after, unescape);
    var next := Outside(COMMA, rest, after);
    ScanMembers(ms.more, tail, next, unescape);
    assert Pop(next.contexts) == Pop(s.contexts);
  }

  /** The raw head of a value: its text up to a comma or closing brace, without trailing space. */
  function Head(v: Value, after: seq<byte>): seq<byte> {
    TrimRight(UntilEnd(SkipSpace(Print(v) + after)))
  }

  /** The version recorded after the members of an object: only the root's members count. */
  function RootVersion(ms: Members, root: bool, version: Option<seq<byte>>, unescape: Unescape): Option<seq<byte>> {
    if ms.NoMembers? then version
    else if root && unescape(Quoted(ms.key)) == VERSION_KEY
    then RootVersion(ms.more, root, Some(Head(ms.value, ms.after)), unescape)
    else RootVersion(ms.more, root, version, unescape)
  }

  lemma {:induction false} NestedVersion(ms: Members, version: Option<seq<byte>>, unescape: Unescape)
    ensures RootVersion(ms, false, version, unescape) == version
  {
    if ms.Member? {
      NestedVersion(ms.more, version, unescape);
    }
  }

  lemma {:induction false} SkipBlank(blank: seq<byte>, text: seq<byte>)
    requires Blank(blank)
    ensures SkipSpace(blank + text) == SkipSpace(text)
  {
    if blank == [] {
      assert blank + text == text;
    } else {
      assert (blank + text)[1..] == blank[1..] + text;
      SkipBlank(blank[1..], text);
    }
  }

  lemma {:induction false} UntilEndStops(text: seq<byte>, end: seq<byte>)
    requires end != [] && (end[0] == COMMA || end[0] == CLOSE_OBJECT)
    ensures UntilEnd(text + end) == UntilEnd(text)
  {
    if text == [] {
      assert text + end == end;
    } else {
      assert (text + end)[1..] == text[1..] + end;
      UntilEndStops(text[1..], end);
    }
  }

  lemma PrintStarts(v: Value)
    requires WellFormed(v)
    ensures Print(v) != [] && !IsSpace(Print(v)[0])
  {
  }

  /** The token read after a root colon depends on that member alone. */
  lemma HeadStops(ms: Members, end: seq<byte>)
    requires ms.Member? && WellFormedMembers(ms) && end != [] && (end[0] == COMMA || end[0] == CLOSE_OBJECT)
    ensures VersionToken(ms.lead + (Print(ms.value) + (ms.after + end))) == Head(ms.value, ms.after)
  {
    var text := Print(ms.value) + ms.after;
    PrintStarts(ms.value);
    SkipBlank(ms.lead, Print(ms.value) + (ms.after + end));
    assert Print(ms.value) + (ms.after + end) == text + end;
    UntilEndStops(text, end);
  }

  /** On every JSON text with an object root the scanner reports a duplicate if and only if some
      object at some depth repeats a name, and otherwise records the root's version member. */
  lemma ScannerAgrees(lead: seq<byte>, root: Value, trail: seq<byte>, unescape: Unescape)
    requires Blank(lead) && Blank(trail) && root.Object? && WellFormed(root)
    ensures ScanRest(lead + Print(root) + trail, START, unescape) ==
            if Repeats(root, unescape) then Duplicate else Unique(RootVersion(root.members, true, None, unescape))
  {
    assert lead + Print(root) + trail == lead + (Print(root) + trail);
    ScanInert(lead, Print(root) + trail, START, unescape);
    ScanContainer(root, trail, START, unescape);
    var end := START.(version := RootVersion(root.members, true, None, unescape));
    assert trail == trail + [];
    ScanInert(trail, [], end, unescape);
  }

  /** The first member of an object with a given name. */
  function Lookup(ms: Members, name: Name, unescape: Unescape): Option<Members> {
    if ms.NoMembers? then None
    else if unescape(Quoted(ms.key)) == name then Some(ms)
    else Lookup(ms.more, name, unescape)
  }

  lemma {:induction false} VersionOf(ms: Members, version: Option<seq<byte>>, unescape: Unescape)
    requires Distinct(Names(ms, unescape))
    ensures var found := Lookup(ms, VERSION_KEY, unescape);
            && (found.Some? ==> found.value.Member? && VERSION_KEY in Names(ms, unescape))
            && RootVersion(ms, true, version, unescape) ==
               (if found.None? then version else Some(Head(found.value.value, found.value.after)))
            && (found.None? ==> VERSION_KEY !in Names(ms, unescape))
  {
    if ms.Member? {
      var names, tail := Names(ms, unescape), Names(ms.more, unescape);
      assert forall i :: 0 <= i < |tail| ==> names[i + 1] == tail[i];
      if names[0] == VERSION_KEY {
        VersionOf(ms.more, Some(Head(ms.value, ms.after)), unescape);
        assert VERSION_KEY !in tail;
      } else {
        VersionOf(ms.more, version, unescape);
      }
    }
  }

  lemma {:induction false} UntilEndWhole(text: seq<byte>)
    requires forall i :: 0 <= i < |text| ==> text[i] != COMMA && text[i] != CLOSE_OBJECT
    ensures UntilEnd(text) == text
  {
    if text != [] {
      UntilEndWhole(text[1..]);
    }
  }

  lemma {:induction false} TrimBlank(token: seq<byte>, after: seq<byte>)
    requires Blank(after) && token != [] && !IsSpace(token[|token| - 1])
    ensures TrimRight(token + after) == token
    decreases |after|
  {
    if after == [] {
      assert token + after == token;
    } else {
      var n := |after| - 1;
      assert (token + after)[..|token + after| - 1] == token + after[..n];
      TrimBlank(token, after[..n]);
    }
  }

  /** For a number or literal the recorded head is its raw text. */
  lemma HeadOfScalar(token: seq<byte>, after: seq<byte>)
    requires WellFormed(Scalar(token)) && Blank(after)
    ensures Head(Scalar(token), after) == token
  {
    UntilEndWhole(token + after);
    TrimBlank(token, after);
  }

  lemma {:induction false} TrimKeepsFirst(text: seq<byte>)
    requires text != [] && !IsSpace(text[0])
    ensures TrimRight(text) != [] && TrimRight(text)[0] == text[0]
    decreases |text|
  {
    if IsSpace(text[|text| - 1]) {
      TrimKeepsFirst(text[..|text| - 1]);
    }
  }

  const ONE: seq<byte> := [49]

  lemma HeadIsOne(v: Value, after: seq<byte>)
    requires WellFormed(v) && Blank(after)
    ensures Head(v, after) == ONE <==> v == Scalar(ONE)
  {
    PrintStarts(v);
    if v.Scalar? {
      HeadOfScalar(v.token, after);
    } else {
      var text := Print(v) + after;
      assert UntilEnd(text)[0] == text[0] == Print(v)[0];
      TrimKeepsFirst(UntilEnd(text));
    }
  }

  /** Without a repetition the recorded token is the text `1` exactly when the root's own
      version member is the number 1 written as one digit. */
  lemma {:induction false} VersionIsOne(root: Value, unescape: Unescape)
    requires root.Object? && WellFormed(root) && !Repeats(root, unescape)
    ensures RootVersion(root.members, true, None, unescape) == Some(ONE) <==>
            var found := Lookup(root.members, VERSION_KEY, unescape);
            found.Some? && found.value.Member? && found.value.value == Scalar(ONE)
  {
    VersionOf(root.members, None, unescape);
    var found := Lookup(root.members, VERSION_KEY, unescape);
    if found.Some? {
      LookupWellFormed(root.members, unescape);
      HeadIsOne(found.value.value, found.value.after);
    }
  }

  lemma {:induction false} LookupWellFormed(ms: Members, unescape: Unescape)
    requires WellFormedMembers(ms)
    ensures var found := Lookup(ms, VERSION_KEY, unescape);
            found.Some? ==> WellFormedMembers(found.value)
  {
    if ms.Member? {
      LookupWellFormed(ms.more, unescape);
    }
  }
}
