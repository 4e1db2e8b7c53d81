/**
  The configuration package's one-pass scanner. It walks the raw bytes of a JSON text once,
  with a stack of open containers, to find a repeated member name at any depth and the raw
  text of the root's version member. The reference is recursive: a concrete syntax tree
  (sections 4, 5 and 7 of RFC 8259), its printed form, and the names of its objects.

  Unescaping a name is a library call; it is the parameter `unescape`, an arbitrary function
  from a quoted token to a name.
*/
module JsonScan {
  import opened Bytes
  import opened Crash

  type Name = seq<int>
  type Unescape = seq<byte> -> Name

  const QUOTE: byte := 34
  const COMMA: byte := 44
  const COLON: byte := 58
  const OPEN_ARRAY: byte := 91
  const BACKSLASH: byte := 92
  const CLOSE_ARRAY: byte := 93
  const OPEN_OBJECT: byte := 123
  const CLOSE_OBJECT: byte := 125

  const SCHEMA: seq<byte> := [115, 99, 104, 101, 109, 97]  // schema
  const VERSION_WORD: seq<byte> := [86, 101, 114, 115, 105, 111, 110]  // Version
  const VERSION_KEY: seq<byte> := SCHEMA + VERSION_WORD

  /** An open container; `key` is empty while no member name is current. */
  datatype Context = Context(isObject: bool, expectingKey: bool, keys: set<Name>, key: Name)

  datatype State = State(token: Option<seq<byte>>, escaped: bool, contexts: seq<Context>, version: Option<seq<byte>>)

  datatype Scan = Duplicate | Unique(version: Option<seq<byte>>)

  predicate IsSpace(b: byte) {
    b == 32 || 9 <= b <= 13
  }

  function SkipSpace(text: seq<byte>): seq<byte> {
    if text != [] && IsSpace(text[0]) then SkipSpace(text[1..]) else text
  }

  /** The text before the first comma or closing brace. */
  function UntilEnd(text: seq<byte>): seq<byte> {
    if text == [] || text[0] == COMMA || text[0] == CLOSE_OBJECT then [] else [text[0]] + UntilEnd(text[1..])
  }

  function TrimRight(text: seq<byte>): seq<byte> {
    if text != [] && IsSpace(text[|text| - 1]) then TrimRight(text[..|text| - 1]) else text
  }

  /** The version token read from the bytes after a colon. */
  function VersionToken(after: seq<byte>): seq<byte> {
    TrimRight(UntilEnd(SkipSpace(after)))
  }

  function Top(contexts: seq<Context>): Context
    requires contexts != []
  {
    contexts[|contexts| - 1]
  }

  function Pop(contexts: seq<Context>): seq<Context> {
    if contexts == [] then [] else contexts[..|contexts| - 1]
  }

  function SetTop(contexts: seq<Context>, top: Context): seq<Context>
    requires contexts != []
  {
    contexts[|contexts| - 1 := top]
  }

  /** A byte outside a string. */
  function Outside(b: byte, rest: seq<byte>, s: State): State {
    if b == QUOTE then s.(token := Some([b]), escaped := false)
    else if b == OPEN_OBJECT then s.(contexts := s.contexts + [Context(true, true, {}, [])])
    else if b == OPEN_ARRAY then s.(contexts := s.contexts + [Context(false, false, {}, [])])
    else if b == CLOSE_OBJECT || b == CLOSE_ARRAY then s.(contexts := Pop(s.contexts))
    else if b == COLON && |s.contexts| == 1 && Top(s.contexts).isObject && Top(s.contexts).key == VERSION_KEY then
      s.(version := Some(VersionToken(rest)))
    else if b == COMMA && s.contexts != [] && Top(s.contexts).isObject then
      s.(contexts := SetTop(s.contexts, Top(s.contexts).(expectingKey := true, key := [])))
    else s
  }

  /** The closing quote of a string; `None` when it completes a repeated member name. */
  function CloseString(token: seq<byte>, s: State, unescape: Unescape): Option<State> {
    var closed := s.(token := None, escaped := false);
    if s.contexts == [] || !Top(s.contexts).isObject || !Top(s.contexts).expectingKey then Some(closed)
    else
      var top, key := Top(s.contexts), unescape(token);
      if key in top.keys then None
      else Some(closed.(contexts := SetTop(s.contexts,
                                           top.(keys := top.keys + {key}, key := key, expectingKey := false))))
  }

  /** One byte of the scan. */
  function Step(b: byte, rest: seq<byte>, s: State, unescape: Unescape): Option<State> {
    if s.token.None? then Some(Outside(b, rest, s))
    else if s.escaped then Some(s.(escaped := false, token := Some(s.token.value + [b])))
    else if b == BACKSLASH then Some(s.(escaped := true, token := Some(s.token.value + [b])))
    else if b == QUOTE then CloseString(s.token.value + [b], s, unescape)
    else Some(s.(token := Some(s.token.value + [b])))
  }

  function ScanRest(text: seq<byte>, s: State, unescape: Unescape): Scan {
    if text == [] then Unique(s.version)
    else
      var next := Step(text[0], text[1..], s, unescape);
      if next.None? then Duplicate else ScanRest(text[1..], next.value, unescape)
  }

  const START := State(None, false, [], None)

  /** `scanRoot`: one loop over the bytes, with the open string kept as its start offset. */
  method ScanRoot(encoded: seq<byte>, unescape: Unescape) returns (r: Scan)
    ensures r == ScanRest(encoded, START, unescape)
  {
    var inString, escaped, stringStart := false, false, 0;
    var contexts: seq<Context>, version: Option<seq<byte>> := [], None;
    var i := 0;
    assert encoded[0..] == encoded;
    while i < |encoded|
      invariant 0 <= i <= |encoded| && (inString ==> stringStart < i) && (!inString ==> !escaped)
      invariant ScanRest(encoded, START, unescape) ==
                ScanRest(encoded[i..],
                         State(if inString then Some(encoded[stringStart..i]) else None, escaped, contexts,
                               version), unescape)
    {
      var value := encoded[i];
      ghost var before := State(if inString then Some(encoded[stringStart..i]) else None, escaped, contexts, version);
      assert encoded[i..][1..] == encoded[i + 1..]
             && (inString ==> encoded[stringStart..i] + [value] == encoded[stringStart..i + 1]);
      if inString {
        if escaped {
          escaped := false;
        } else if value == BACKSLASH {
          escaped := true;
        } else if value == QUOTE {
          inString := false;
          if contexts != [] && Top(contexts).isObject && Top(contexts).expectingKey {
            var key, top := unescape(encoded[stringStart..i + 1]), Top(contexts);
            if key in top.keys {
              return Duplicate;
            }
            contexts := SetTop(contexts, top.(keys := top.keys + {key}, key := key, expectingKey := false));
          }
        }
      } else if value == QUOTE {
        inString, stringStart := true, i;
        assert encoded[i..i + 1] == [value];
      } else if value == OPEN_OBJECT {
        contexts := contexts + [Context(true, true, {}, [])];
      } else if value == CLOSE_OBJECT || value == CLOSE_ARRAY {
        contexts := Pop(contexts);
      } else if value == OPEN_ARRAY {
        contexts := contexts + [Context(false, false, {}, [])];
      } else if value == COLON && |contexts| == 1 && Top(contexts).isObject && Top(contexts).key == VERSION_KEY {
        version := Some(VersionToken(encoded[i + 1..]));
      } else if value == COMMA && contexts != [] && Top(contexts).isObject {
        contexts := SetTop(contexts, Top(contexts).(expectingKey := true, key := []));
      }
      i := i + 1;
      assert Step(value, encoded[i..], before, unescape)
             == Some(State(if inString then Some(encoded[stringStart..i]) else None, escaped, contexts, version));
    }
    return Unique(version);
  }
}
