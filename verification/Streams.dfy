/** Streams of whole frames, as a sender puts them on the wire. */
module Streams {
  import opened Wire
  import opened Parser

  datatype AnyFrame = Sent(kind: byte, seqNo: uint16, payload: seq<byte>)

  /** A frame the encoder accepts. */
  type Sent = x: AnyFrame | |x.payload| <= MAX_PAYLOAD witness AnyFrame.Sent(0, 0, [])

  function Bytes(f: Format, x: Sent): (s: seq<byte>)
    ensures |s| == HEADER_LEN + |x.payload|
  {
    Encode(f, x.kind, x.seqNo, x.payload)
  }

  function Received(x: Sent): (r: Frame) {
    Frame(x.kind, x.payload)
  }

  function Stream(f: Format, xs: seq<Sent>): (s: seq<byte>) {
    if xs == [] then [] else Bytes(f, xs[0]) + Stream(f, xs[1..])
  }

  function Frames(xs: seq<Sent>): (fs: seq<Frame>)
    ensures |fs| == |xs|
  {
    if xs == [] then [] else [Received(xs[0])] + Frames(xs[1..])
  }

  lemma {:induction false} StreamSnoc(f: Format, xs: seq<Sent>, x: Sent)
    ensures Stream(f, xs + [x]) == Stream(f, xs) + Bytes(f, x)
    ensures Frames(xs + [x]) == Frames(xs) + [Received(x)]
    decreases |xs|
  {
    if xs == [] {
      assert xs + [x] == [x] && [x][1..] == [];
    } else {
      assert (xs + [x])[1..] == xs[1..] + [x];
      StreamSnoc(f, xs[1..], x);
    }
  }

  /** Whole frames in front of any bytes are all received, in order. */
  lemma {:induction false} ParseStream(f: Format, xs: seq<Sent>, tail: seq<byte>)
    ensures Parse(f, Stream(f, xs) + tail) == Parsed(Frames(xs) + Parse(f, tail).frames, Parse(f, tail).rest)
    decreases |xs|
  {
    var p := Parse(f, tail);
    if xs == [] {
      assert Stream(f, xs) + tail == tail;
      assert Frames(xs) + p.frames == p.frames;
    } else {
      ParseStream(f, xs[1..], tail);
      ParseFirst(f, xs[0], Stream(f, xs[1..]), tail);
      assert [Received(xs[0])] + (Frames(xs[1..]) + p.frames) == Frames(xs) + p.frames;
    }
  }

  lemma ParseFirst(f: Format, x: Sent, more: seq<byte>, tail: seq<byte>)
    ensures var p := Parse(f, more + tail);
      Parse(f, Bytes(f, x) + more + tail) == Parsed([Received(x)] + p.frames, p.rest)
  {
    assert Bytes(f, x) + more + tail == Bytes(f, x) + (more + tail);
    ParseEncode(f, x.kind, x.seqNo, x.payload, more + tail);
  }

  lemma ParseWhole(f: Format, xs: seq<Sent>)
    ensures Parse(f, Stream(f, xs)) == Parsed(Frames(xs), [])
  {
    ParseStream(f, xs, []);
    assert Stream(f, xs) + [] == Stream(f, xs);
    assert Frames(xs) + [] == Frames(xs);
  }

  /** A reader that has only part of a stream of frames has the first of them, and
      never anything else. */
  lemma PrefixGivesPrefix(f: Format, xs: seq<Sent>, part: seq<byte>)
    requires part <= Stream(f, xs)
    ensures Parse(f, part).frames <= Frames(xs)
  {
    ParseWhole(f, xs);
    var rest := Stream(f, xs)[|part|..];
    assert part + rest == Stream(f, xs);
    ParseAppend(f, part, rest);
  }
}
