/**
  Reading frames from a growing buffer, for any function that recognises what the front of
  a buffer holds and never changes its mind when more bytes arrive.
*/
module Framing {
  import opened Bytes

  /** What the front of a buffer holds: a whole frame, the start of one, or a violation. */
  datatype Frame<E> = Whole(event: E, length: nat) | Partial | Violation(problem: E)

  type Recogniser<E> = seq<byte> -> Frame<E>

  ghost predicate Keeps<E>(front: Recogniser<E>, b: seq<byte>, more: seq<byte>) {
    !front(b).Partial? ==> front(b + more) == front(b)
  }

  /** Frames are not empty, and bytes that arrive later never change a frame or a violation already seen. */
  ghost predicate Lawful<E(!new)>(front: Recogniser<E>) {
    && front([]).Partial?
    && (forall b: seq<byte> :: front(b).Whole? ==> 0 < front(b).length <= |b|)
    && (forall b: seq<byte>, more: seq<byte> :: Keeps(front, b, more))
  }

  /** The events read, the unread rest, and whether reading ended with a violation. */
  datatype Parsed<E> = Parsed(events: seq<E>, rest: seq<byte>, failed: bool)

  /** Reading a whole stream at once. */
  ghost function Parse<E(!new)>(front: Recogniser<E>, stream: seq<byte>): Parsed<E>
    requires Lawful(front)
    decreases |stream|
  {
    match front(stream)
    case Partial => Parsed([], stream, false)
    case Violation(problem) => Parsed([problem], [], true)
    case Whole(event, length) =>
      var tail := Parse(front, stream[length..]);
      Parsed([event] + tail.events, tail.rest, tail.failed)
  }

  /** A parse some of whose events have already been emitted. */
  ghost function Resume<E>(emitted: seq<E>, p: Parsed<E>): Parsed<E> {
    p.(events := emitted + p.events)
  }

  /** One frame of a parse moves from what is still to be read to what has been emitted. */
  lemma ResumeStep<E(!new)>(front: Recogniser<E>, emitted: seq<E>, buffer: seq<byte>)
    requires Lawful(front)
    ensures Resume(emitted, Parse(front, buffer)) ==
            var f := front(buffer);
            if f.Partial? then Parsed(emitted, buffer, false)
            else if f.Violation? then Parsed(emitted + [f.problem], [], true)
            else Resume(emitted + [f.event], Parse(front, buffer[f.length..]))
  {
    if front(buffer).Whole? {
      var tail := Parse(front, buffer[front(buffer).length..]).events;
      assert emitted + ([front(buffer).event] + tail) == (emitted + [front(buffer).event]) + tail;
    }
  }

  /** Reading a stream that arrives in chunks, up to and including its first violation. */
  ghost function Feed<E(!new)>(front: Recogniser<E>, buffer: seq<byte>, chunks: seq<seq<byte>>): Parsed<E>
    requires Lawful(front)
    decreases |chunks|
  {
    if chunks == [] then Parsed([], buffer, false)
    else
      var first := Parse(front, buffer + chunks[0]);
      if first.failed then first
      else
        var later := Feed(front, first.rest, chunks[1..]);
        Parsed(first.events + later.events, later.rest, later.failed)
  }

  lemma {:induction false} RestIsPartial<E(!new)>(front: Recogniser<E>, stream: seq<byte>)
    requires Lawful(front)
    ensures front(Parse(front, stream).rest).Partial?
    decreases |stream|
  {
    if front(stream).Whole? {
      RestIsPartial(front, stream[front(stream).length..]);
    }
  }

  /** Going on, from what a parse left, with `b`. */
  ghost function GoOn<E(!new)>(front: Recogniser<E>, first: Parsed<E>, b: seq<byte>): Parsed<E>
    requires Lawful(front)
  {
    if first.failed then first else Resume(first.events, Parse(front, first.rest + b))
  }

  lemma GoOnAfter<E(!new)>(front: Recogniser<E>, event: E, tail: Parsed<E>, b: seq<byte>)
    requires Lawful(front)
    ensures GoOn(front, tail.(events := [event] + tail.events), b) == Resume([event], GoOn(front, tail, b))
  {
    var later := Parse(front, tail.rest + b);
    assert [event] + (tail.events + later.events) == ([event] + tail.events) + later.events;
  }

  /** Parsing `a + b` is parsing `a` and going on, from what it left, with `b`. */
  lemma {:induction false} ParseAppend<E(!new)>(front: Recogniser<E>, a: seq<byte>, b: seq<byte>)
    requires Lawful(front)
    ensures Parse(front, a + b) == GoOn(front, Parse(front, a), b)
    decreases |a|
  {
    assert Keeps(front, a, b);
    match front(a)
    case Partial =>
      assert [] + Parse(front, a + b).events == Parse(front, a + b).events;
    case Violation(_) =>
    case Whole(event, n) =>
      assert (a + b)[n..] == a[n..] + b;
      ParseAppend(front, a[n..], b);
      GoOnAfter(front, event, Parse(front, a[n..]), b);
  }

  /** Chunking does not matter: for every stream and every way to cut it, reading chunk by
      chunk gives the same events, the same rest and the same failure as reading it at once. */
  lemma {:induction false} ChunkingIsIrrelevant<E(!new)>(
      front: Recogniser<E>, buffer: seq<byte>, chunks: seq<seq<byte>>)
    requires Lawful(front) && front(buffer).Partial?
    ensures Feed(front, buffer, chunks) == Parse(front, buffer + Concat(chunks))
    decreases |chunks|
  {
    if chunks == [] {
      assert buffer + Concat(chunks) == buffer;
    } else {
      var stream := buffer + chunks[0];
      assert buffer + Concat(chunks) == stream + Concat(chunks[1..]);
      ParseAppend(front, stream, Concat(chunks[1..]));
      RestIsPartial(front, stream);
      ChunkingIsIrrelevant(front, Parse(front, stream).rest, chunks[1..]);
    }
  }

  /** A stream that is a concatenation of frames is read as exactly those frames. */
  lemma {:induction false} ParseFrames<E(!new)>(front: Recogniser<E>, frames: seq<(E, seq<byte>)>)
    requires Lawful(front)
    requires forall f <- frames :: forall after: seq<byte> :: front(f.1 + after) == Whole(f.0, |f.1|)
    ensures Parse(front, Stream(frames)) == Parsed(Events(frames), [], false)
  {
    if frames != [] {
      var f, tail := frames[0], Stream(frames[1..]);
      assert front(f.1 + tail) == Whole(f.0, |f.1|);
      assert (f.1 + tail)[|f.1|..] == tail;
      ParseFrames(front, frames[1..]);
    }
  }

  ghost function Stream<E>(frames: seq<(E, seq<byte>)>): seq<byte> {
    if frames == [] then [] else frames[0].1 + Stream(frames[1..])
  }

  ghost function Events<E>(frames: seq<(E, seq<byte>)>): seq<E> {
    if frames == [] then [] else [frames[0].0] + Events(frames[1..])
  }
}
