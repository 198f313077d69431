/** Decoding a byte stream that arrives in chunks, for any decoder of the first frame of a buffer. */
module Streaming {
  import opened Bytes

  type Data = seq<byte>

  /** What the front of a buffer holds: a whole frame, part of one, or an error. */
  datatype First<F, E> = Whole(frame: F, used: nat) | Part | Wrong(error: E)

  /** A whole frame has bytes, and bytes that follow change neither a frame nor an error. */
  ghost predicate Decodes<F, E>(first: Data -> First<F, E>) {
    && (forall s :: first(s).Whole? ==> 0 < first(s).used <= |s|)
    && (forall s, t :: Final(first, s, t))
  }

  ghost predicate Final<F, E>(first: Data -> First<F, E>, s: Data, t: Data) {
    first(s).Part? || first(s + t) == first(s)
  }

  /** What repeated decoding gets out of a buffer: frames, then an error or not, and the bytes left. */
  datatype Drained<F, E> = Drained(frames: seq<F>, left: Data, error: Option<E>)

  ghost function Drain<F, E>(first: Data -> First<F, E>, s: Data): Drained<F, E>
    requires Decodes(first)
    decreases |s|
  {
    match first(s)
    case Part => Drained([], s, None)
    case Wrong(e) => Drained([], s, Some(e))
    case Whole(f, used) =>
      var d := Drain(first, s[used..]);
      d.(frames := [f] + d.frames)
  }

  /** Draining what was buffered and then more bytes is draining all of it at once. */
  lemma {:induction false} DrainMore<F, E>(first: Data -> First<F, E>, s: Data, t: Data)
    requires Decodes(first)
    ensures var d := Drain(first, s);
            if d.error.Some? then Drain(first, s + t) == d.(left := d.left + t)
            else Drain(first, s + t) == Drain(first, d.left + t).(frames := d.frames + Drain(first, d.left + t).frames)
    decreases |s|
  {
    hide Drain;
    assert Final(first, s, t);
    DrainTurn(first, s);
    DrainTurn(first, s + t);
    var r := first(s);
    if r.Whole? {
      var (rest, d) := (s[r.used..], Drain(first, s[r.used..]));
      assert (s + t)[r.used..] == rest + t;
      DrainMore(first, rest, t);
      if d.error.None? {
        assert [r.frame] + (d.frames + Drain(first, d.left + t).frames) == [r.frame] + d.frames + Drain(first, d.left + t).frames;
      }
    }
  }

  lemma DrainTurn<F, E>(first: Data -> First<F, E>, s: Data)
    requires Decodes(first)
    ensures var (r, d) := (first(s), Drain(first, s));
            && (r.Part? ==> d == Drained([], s, None))
            && (r.Wrong? ==> d == Drained([], s, Some(r.error)))
            && (r.Whole? ==> d == Drain(first, s[r.used..]).(frames := [r.frame] + Drain(first, s[r.used..]).frames))
  {
  }

  function Joined(chunks: seq<Data>): Data {
    if chunks == [] then [] else chunks[0] + Joined(chunks[1..])
  }

  /** A connection that reads chunk by chunk, drains after each, and stops at the first error. */
  ghost function Read<F, E>(first: Data -> First<F, E>, left: Data, chunks: seq<Data>): Drained<F, E>
    requires Decodes(first)
    decreases |chunks|
  {
    if chunks == [] then Drained([], left, None)
    else
      var d := Drain(first, left + chunks[0]);
      if d.error.Some? then d
      else
        var more := Read(first, d.left, chunks[1..]);
        more.(frames := d.frames + more.frames)
  }

  /** What is left has no frame in front. */
  lemma {:induction false} DrainedLeft<F, E>(first: Data -> First<F, E>, s: Data)
    requires Decodes(first) && Drain(first, s).error.None?
    ensures var left := Drain(first, s).left; Drain(first, left) == Drained([], left, None)
    decreases |s|
  {
    if first(s).Whole? {
      DrainedLeft(first, s[first(s).used..]);
    }
  }

  lemma {:induction false} ReadIsDrain<F, E>(first: Data -> First<F, E>, left: Data, chunks: seq<Data>)
    requires Decodes(first) && Drain(first, left) == Drained([], left, None)
    ensures var (r, whole) := (Read(first, left, chunks), Drain(first, left + Joined(chunks)));
            r.frames == whole.frames && r.error == whole.error && (r.error.None? ==> r.left == whole.left)
    decreases |chunks|
  {
    hide Drain, Decodes;
    if chunks == [] {
      assert left + Joined(chunks) == left;
    } else {
      var (front, rest) := (left + chunks[0], Joined(chunks[1..]));
      var d := Drain(first, front);
      DrainMore(first, front, rest);
      assert left + Joined(chunks) == front + rest;
      if d.error.None? {
        DrainedLeft(first, front);
        ReadIsDrain(first, d.left, chunks[1..]);
      }
    }
  }

  /** However a stream is cut into chunks, reading it emits the frames and the first error of the
      whole stream. */
  lemma ChunkingInvariant<F, E>(first: Data -> First<F, E>, chunks: seq<Data>)
    requires Decodes(first) && first([]).Part?
    ensures var (r, whole) := (Read(first, [], chunks), Drain(first, Joined(chunks)));
            r.frames == whole.frames && r.error == whole.error && (r.error.None? ==> r.left == whole.left)
  {
    hide Read, Decodes;
    ReadIsDrain(first, [], chunks);
    assert [] + Joined(chunks) == Joined(chunks);
  }

  function Stream<F>(frames: seq<F>, encode: F -> Data): Data {
    if frames == [] then [] else encode(frames[0]) + Stream(frames[1..], encode)
  }

  /** Every frame of the list is what decoding its encoding returns, whatever follows. */
  ghost predicate Inverts<F, G, E>(first: Data -> First<G, E>, encode: F -> Data, seen: F -> G, frames: seq<F>) {
    forall i, rest :: 0 <= i < |frames| ==> DecodesTo(first, encode(frames[i]), seen(frames[i]), rest)
  }

  ghost predicate DecodesTo<G, E>(first: Data -> First<G, E>, bytes: Data, frame: G, rest: Data) {
    first(bytes + rest) == Whole(frame, |bytes|)
  }

  function AllSeen<F, G>(frames: seq<F>, seen: F -> G): seq<G> {
    if frames == [] then [] else [seen(frames[0])] + AllSeen(frames[1..], seen)
  }

  lemma {:induction false} StreamDrained<F, G, E>(first: Data -> First<G, E>, encode: F -> Data, seen: F -> G, frames: seq<F>)
    requires Decodes(first) && first([]).Part? && Inverts(first, encode, seen, frames)
    ensures Drain(first, Stream(frames, encode)) == Drained(AllSeen(frames, seen), [], None)
  {
    if frames != [] {
      var (bytes, rest) := (encode(frames[0]), Stream(frames[1..], encode));
      assert DecodesTo(first, bytes, seen(frames[0]), rest);
      assert Inverts(first, encode, seen, frames[1..]) by {
        forall i, more | 0 <= i < |frames[1..]| ensures DecodesTo(first, encode(frames[1..][i]), seen(frames[1..][i]), more) {
          assert DecodesTo(first, encode(frames[i + 1]), seen(frames[i + 1]), more);
        }
      }
      StreamDrained(first, encode, seen, frames[1..]);
      assert (bytes + rest)[|bytes|..] == rest;
    }
  }

  /** Encoded frames, concatenated and cut anywhere, are decoded back, with nothing left over. */
  lemma StreamRead<F, G, E>(first: Data -> First<G, E>, encode: F -> Data, seen: F -> G, frames: seq<F>, chunks: seq<Data>)
    requires Decodes(first) && first([]).Part? && Inverts(first, encode, seen, frames) && Joined(chunks) == Stream(frames, encode)
    ensures Read(first, [], chunks) == Drained(AllSeen(frames, seen), [], None)
  {
    hide Read, Drain, Decodes, Inverts, Stream;
    StreamDrained(first, encode, seen, frames);
    ChunkingInvariant(first, chunks);
  }
}
