/** The reference parser: what a stream of bytes means, as one recursive function.
    Both ends resynchronise this way, so it specifies the board's reader and it is
    also how the host reads the board. */
module Parser {
  import opened Wire

  datatype Parsed = Parsed(frames: seq<Frame>, rest: seq<byte>)

  function Parse(f: Format, s: seq<byte>): (p: Parsed)
    ensures |p.rest| <= |s|
    decreases |s|
  {
    if |s| < HEADER_LEN then Parsed([], s)
    else if !GoodHeader(f, s) then Parse(f, s[1..])
    else if |s| < HEADER_LEN + Declared(s) then Parsed([], s)
    else
      var p := Parse(f, s[HEADER_LEN + Declared(s)..]);
      Parsed([Frame(s[2], s[HEADER_LEN..HEADER_LEN + Declared(s)])] + p.frames, p.rest)
  }

  /** The parse of `a` carried on with `b`. */
  function Continue(f: Format, p: Parsed, b: seq<byte>): (q: Parsed) {
    var more := Parse(f, p.rest + b);
    Parsed(p.frames + more.frames, more.rest)
  }

  /** Bytes that arrive later never change what was already decided. */
  lemma {:induction false} ParseAppend(f: Format, a: seq<byte>, b: seq<byte>)
    ensures Parse(f, a + b) == Continue(f, Parse(f, a), b)
    decreases |a|
  {
    if |a| < HEADER_LEN {
      assert [] + Parse(f, a + b).frames == Parse(f, a + b).frames;
    } else {
      GoodHeaderPrefix(f, a, b);
      if !GoodHeader(f, a) {
        assert (a + b)[1..] == a[1..] + b;
        ParseAppend(f, a[1..], b);
      } else if |a| >= HEADER_LEN + Declared(a) {
        ParseAppend(f, a[HEADER_LEN + Declared(a)..], b);
        ParseAppendFrame(f, a, b);
      } else {
        assert [] + Parse(f, a + b).frames == Parse(f, a + b).frames;
      }
    }
  }

  /** The step of ParseAppend over a whole frame at the front of `a`. */
  lemma ParseAppendFrame(f: Format, a: seq<byte>, b: seq<byte>)
    requires |a| >= HEADER_LEN && GoodHeader(f, a) && |a| >= HEADER_LEN + Declared(a)
    requires var t := a[HEADER_LEN + Declared(a)..]; Parse(f, t + b) == Continue(f, Parse(f, t), b)
    ensures Parse(f, a + b) == Continue(f, Parse(f, a), b)
  {
    var n := HEADER_LEN + Declared(a);
    GoodHeaderPrefix(f, a, b);
    CutMore(a, HEADER_LEN, n, b);
    var p := Parse(f, a[n..]);
    Associate([Frame(a[2], a[HEADER_LEN..n])], p.frames, Parse(f, p.rest + b).frames);
  }

  lemma CutMore(s: seq<byte>, a: nat, b: nat, more: seq<byte>)
    requires a <= b <= |s|
    ensures (s + more)[a..b] == s[a..b] && (s + more)[b..] == s[b..] + more
  {
  }

  lemma Associate(a: seq<Frame>, b: seq<Frame>, c: seq<Frame>)
    ensures a + (b + c) == (a + b) + c
  {
  }

  /** What parsing leaves behind holds no further frame. */
  lemma {:induction false} RestIsSettled(f: Format, s: seq<byte>)
    ensures Parse(f, Parse(f, s).rest) == Parsed([], Parse(f, s).rest)
    decreases |s|
  {
    if |s| >= HEADER_LEN {
      if !GoodHeader(f, s) {
        RestIsSettled(f, s[1..]);
      } else if |s| >= HEADER_LEN + Declared(s) {
        RestIsSettled(f, s[HEADER_LEN + Declared(s)..]);
      }
    }
  }

  /** Round trip of one frame in front of any bytes. */
  lemma ParseEncode(f: Format, kind: byte, seqNo: uint16, payload: seq<byte>, tail: seq<byte>)
    requires |payload| <= MAX_PAYLOAD
    ensures var p := Parse(f, tail);
      Parse(f, Encode(f, kind, seqNo, payload) + tail) == Parsed([Frame(kind, payload)] + p.frames, p.rest)
  {
    EncodeIsGood(f, kind, seqNo, payload, tail);
  }

  /** Every header the parser accepts, the one still in flight included, declares
      at most `n` payload bytes. */
  predicate DeclaresAtMost(f: Format, s: seq<byte>, n: nat)
    decreases |s|
  {
    if |s| < HEADER_LEN then true
    else if !GoodHeader(f, s) then DeclaresAtMost(f, s[1..], n)
    else
      && Declared(s) <= n
      && (|s| < HEADER_LEN + Declared(s) || DeclaresAtMost(f, s[HEADER_LEN + Declared(s)..], n))
  }

  lemma {:induction false} DeclaresAtMostSplit(f: Format, a: seq<byte>, b: seq<byte>, n: nat)
    requires DeclaresAtMost(f, a + b, n)
    ensures DeclaresAtMost(f, a, n)
    ensures DeclaresAtMost(f, Parse(f, a).rest + b, n)
    decreases |a|
  {
    if |a| >= HEADER_LEN {
      GoodHeaderPrefix(f, a, b);
      if !GoodHeader(f, a) {
        assert (a + b)[1..] == a[1..] + b;
        DeclaresAtMostSplit(f, a[1..], b, n);
      } else if |a| >= HEADER_LEN + Declared(a) {
        var k := HEADER_LEN + Declared(a);
        assert (a + b)[k..] == a[k..] + b;
        DeclaresAtMostSplit(f, a[k..], b, n);
      }
    }
  }

  /** A frame of T bytes leaves at most T - 1 of them pending. */
  lemma {:induction false} RestIsShort(f: Format, s: seq<byte>, n: nat)
    requires DeclaresAtMost(f, s, n)
    ensures |Parse(f, s).rest| < HEADER_LEN + n
    decreases |s|
  {
    if |s| >= HEADER_LEN {
      if !GoodHeader(f, s) {
        RestIsShort(f, s[1..], n);
      } else if |s| >= HEADER_LEN + Declared(s) {
        RestIsShort(f, s[HEADER_LEN + Declared(s)..], n);
      }
    }
  }

  // ---- what is and is not a frame, byte by byte ----

  /** A sixteen-bit field at `i`, low byte first. */
  function Field(s: seq<byte>, i: nat): (v: nat)
    requires i + 1 < |s|
  {
    var lo: int, hi: int := s[i], s[i + 1];
    lo + 256 * hi
  }

  /** The two magic bytes, the checksum of the first eight bytes, and a length a frame
      can have. */
  predicate Passes(f: Format, h: seq<byte>)
    requires |h| >= 10
  {
    Field(h, 0) == f.magic && f.crc(h[..8]) == Field(h, 8) && Field(h, 6) <= 4096
  }

  /** Ten bytes that fail a test cost one byte and nothing else. */
  lemma BadHeaderSkips(f: Format, s: seq<byte>)
    requires |s| >= 10
    requires Field(s, 0) != f.magic || f.crc(s[..8]) != Field(s, 8) || Field(s, 6) > 4096
    ensures Parse(f, s) == Parse(f, s[1..])
  {
  }

  /** Ten that pass them all are waited for until the payload is whole, and then are a
      frame, whatever their other bytes. */
  lemma GoodHeaderTaken(f: Format, s: seq<byte>)
    requires |s| >= 10 && Passes(f, s)
    ensures var n := Field(s, 6);
      if |s| < 10 + n then Parse(f, s) == Parsed([], s)
      else
        var p := Parse(f, s[10 + n..]);
        Parse(f, s) == Parsed([Frame(s[2], s[10..10 + n])] + p.frames, p.rest)
  {
  }

  /** `w` is a header that passes and the payload it declares: those of `frame`. */
  ghost predicate Vouches(f: Format, w: seq<byte>, frame: Frame) {
    && |w| >= 10 && Passes(f, w)
    && |w| == 10 + Field(w, 6) && frame == Frame(w[2], w[10..])
  }

  /** `frames` lie in `s` in order, apart from each other and each behind its own good
      header; `rest` is the end of `s`, behind them all. */
  ghost predicate LieIn(f: Format, s: seq<byte>, frames: seq<Frame>, rest: seq<byte>)
    decreases |frames|, 1
  {
    exists a, b :: 0 <= a <= b <= |s| && LieFrom(f, s, a, b, frames, rest)
  }

  /** The first of them in s[a..b]; with none, `rest` begins at b. */
  ghost predicate LieFrom(f: Format, s: seq<byte>, a: nat, b: nat, frames: seq<Frame>, rest: seq<byte>)
    requires a <= b <= |s|
    decreases |frames|, 0
  {
    if frames == [] then rest == s[b..]
    else Vouches(f, s[a..b], frames[0]) && LieIn(f, s[b..], frames[1..], rest)
  }

  lemma LieBehind(f: Format, s: seq<byte>, frames: seq<Frame>, rest: seq<byte>, skip: nat)
    requires skip <= |s| && LieIn(f, s[skip..], frames, rest)
    ensures LieIn(f, s, frames, rest)
  {
    var t := s[skip..];
    var a, b :| 0 <= a <= b <= |t| && LieFrom(f, t, a, b, frames, rest);
    assert t[a..b] == s[skip + a..skip + b] && t[b..] == s[skip + b..];
    assert LieFrom(f, s, skip + a, skip + b, frames, rest);
  }

  lemma LieFirst(f: Format, s: seq<byte>, b: nat, frame: Frame, more: seq<Frame>, rest: seq<byte>)
    requires b <= |s| && Vouches(f, s[0..b], frame) && LieIn(f, s[b..], more, rest)
    ensures LieIn(f, s, [frame] + more, rest)
  {
    assert ([frame] + more)[1..] == more;
    assert LieFrom(f, s, 0, b, [frame] + more, rest);
  }

  lemma LieNone(f: Format, s: seq<byte>, k: nat)
    requires k <= |s|
    ensures LieIn(f, s, [], s[k..])
  {
    assert LieFrom(f, s, 0, k, [], s[k..]);
  }

  lemma FrameLies(f: Format, s: seq<byte>)
    requires |s| >= 10 && Passes(f, s) && |s| >= 10 + Field(s, 6)
    ensures var n := Field(s, 6); Vouches(f, s[0..10 + n], Frame(s[2], s[10..10 + n]))
  {
    var w := s[0..10 + Field(s, 6)];
    assert w[..8] == s[..8] && w[10..] == s[10..10 + Field(s, 6)];
  }

  /** Nothing is dispatched that was not received: every frame the parser takes lies in
      the stream behind a header that passed the three tests, and no byte is in two. */
  lemma {:induction false} FramesLieIn(f: Format, s: seq<byte>)
    ensures LieIn(f, s, Parse(f, s).frames, Parse(f, s).rest)
    decreases |s|
  {
    if |s| < 10 {
      LieNone(f, s, 0);
      assert s[0..] == s;
    } else if !Passes(f, s) {
      BadHeaderSkips(f, s);
      FramesLieIn(f, s[1..]);
      LieBehind(f, s, Parse(f, s).frames, Parse(f, s).rest, 1);
    } else if |s| < 10 + Field(s, 6) {
      GoodHeaderTaken(f, s);
      LieNone(f, s, 0);
      assert s[0..] == s;
    } else {
      var n := Field(s, 6);
      var p := Parse(f, s[10 + n..]);
      GoodHeaderTaken(f, s);
      FramesLieIn(f, s[10 + n..]);
      FrameLies(f, s);
      LieFirst(f, s, 10 + n, Frame(s[2], s[10..10 + n]), p.frames, p.rest);
    }
  }

  /** More bytes behind. */
  lemma {:induction false} LieInMore(f: Format, s: seq<byte>, frames: seq<Frame>, rest: seq<byte>, more: seq<byte>)
    requires LieIn(f, s, frames, rest)
    ensures LieIn(f, s + more, frames, rest + more)
    decreases |frames|
  {
    var a, b :| 0 <= a <= b <= |s| && LieFrom(f, s, a, b, frames, rest);
    CutMore(s, a, b, more);
    if frames != [] {
      LieInMore(f, s[b..], frames[1..], rest, more);
    }
    assert LieFrom(f, s + more, a, b, frames, rest + more);
  }

  /** A part of what is left. */
  lemma {:induction false} LieInLess(f: Format, s: seq<byte>, frames: seq<Frame>, rest: seq<byte>, k: nat)
    requires LieIn(f, s, frames, rest) && k <= |rest|
    ensures LieIn(f, s, frames, rest[k..])
    decreases |frames|
  {
    var a, b :| 0 <= a <= b <= |s| && LieFrom(f, s, a, b, frames, rest);
    if frames == [] {
      assert rest[k..] == s[b + k..];
      LieNone(f, s, b + k);
    } else {
      LieInLess(f, s[b..], frames[1..], rest, k);
      assert LieFrom(f, s, a, b, frames, rest[k..]);
    }
  }

  /** One run of frames behind another. */
  lemma {:induction false} LieInTurn(f: Format, s: seq<byte>, frames: seq<Frame>, rest: seq<byte>, more: seq<Frame>, last: seq<byte>)
    requires LieIn(f, s, frames, rest) && LieIn(f, rest, more, last)
    ensures LieIn(f, s, frames + more, last)
    decreases |frames|
  {
    var a, b :| 0 <= a <= b <= |s| && LieFrom(f, s, a, b, frames, rest);
    if frames == [] {
      LieBehind(f, s, more, last, b);
      assert frames + more == more;
    } else {
      LieInTurn(f, s[b..], frames[1..], rest, more, last);
      assert (frames + more)[1..] == frames[1..] + more;
      assert LieFrom(f, s, a, b, frames + more, last);
    }
  }
}
