/** The reader thread of link.c: a fixed buffer in front of the reference parser. */
module Reader {
  import opened Wire
  import opened Parser
  import opened Streams

  const RX_BUF := 512
  const CHUNK := 64

  /** The longest payload for which the fixed buffer loses nothing:
      10 + 439 - 1 bytes pending and 64 more is exactly 512. */
  const SAFE_PAYLOAD := 439

  /** The overflow rule: a buffer still full after parsing keeps its last ten bytes. */
  function Kept(rest: seq<byte>): (r: seq<byte>)
    requires |rest| <= RX_BUF
    ensures |r| < RX_BUF
    ensures |rest| < RX_BUF ==> r == rest
    ensures |rest| == RX_BUF ==> |r| == HEADER_LEN && r == rest[RX_BUF - HEADER_LEN..]
  {
    if |rest| == RX_BUF then rest[RX_BUF - HEADER_LEN..] else rest
  }

  /** One pass of the reader: the frames dispatched and the bytes left in the buffer. */
  function Feed(f: Format, pending: seq<byte>, chunk: seq<byte>): (p: Parsed)
    requires |pending| < RX_BUF
    ensures |p.rest| < RX_BUF
  {
    var room := RX_BUF - |pending|;
    var take := if |chunk| < room then |chunk| else room;
    var p := Parse(f, pending + chunk[..take]);
    Parsed(p.frames, Kept(p.rest))
  }

  function FeedAll(f: Format, pending: seq<byte>, chunks: seq<seq<byte>>): (p: Parsed)
    requires |pending| < RX_BUF
    ensures |p.rest| < RX_BUF
    decreases |chunks|
  {
    if chunks == [] then Parsed([], pending)
    else
      var p := Feed(f, pending, chunks[0]);
      var q := FeedAll(f, p.rest, chunks[1..]);
      Parsed(p.frames + q.frames, q.rest)
  }

  function Concat(chunks: seq<seq<byte>>): (s: seq<byte>) {
    if chunks == [] then [] else chunks[0] + Concat(chunks[1..])
  }

  /** A split the reader can meet: ring_buf_get returns 1 to 64 bytes. */
  predicate Reads(chunks: seq<seq<byte>>) {
    forall i :: 0 <= i < |chunks| ==> 1 <= |chunks[i]| <= CHUNK
  }

  ghost predicate Settled(f: Format, pending: seq<byte>) {
    Parse(f, pending) == Parsed([], pending)
  }

  /** `done` was dispatched from the bytes before `at`; the rest is as yet unread. */
  ghost predicate Scanned(f: Format, all: seq<byte>, done: seq<Frame>, at: nat)
    requires at <= |all|
  {
    var p := Parse(f, all[at..]);
    Parse(f, all) == Parsed(done + p.frames, p.rest)
  }

  /** At least ten bytes begin with: no header, a frame still arriving, or a whole one. */
  datatype Found = Skip | Short | Whole(frame: Frame)

  ghost predicate IsFound(f: Format, p: seq<byte>, found: Found)
    requires |p| >= HEADER_LEN
  {
    match found
    case Skip => !GoodHeader(f, p)
    case Short => GoodHeader(f, p) && |p| < HEADER_LEN + Declared(p)
    case Whole(frame) =>
      && GoodHeader(f, p) && |p| >= HEADER_LEN + Declared(p)
      && frame == Frame(p[2], p[HEADER_LEN..HEADER_LEN + Declared(p)])
  }

  lemma AfterSkip(f: Format, all: seq<byte>, done: seq<Frame>, at: nat)
    requires |all| - at >= HEADER_LEN && Scanned(f, all, done, at) && !GoodHeader(f, all[at..])
    ensures Scanned(f, all, done, at + 1)
  {
    assert all[at..][1..] == all[at + 1..];
  }

  lemma AfterFrame(f: Format, all: seq<byte>, done: seq<Frame>, at: nat, frame: Frame)
    requires at + HEADER_LEN <= |all| && Scanned(f, all, done, at) && IsFound(f, all[at..], Whole(frame))
    ensures at + HEADER_LEN + |frame.payload| <= |all|
    ensures Scanned(f, all, done + [frame], at + HEADER_LEN + |frame.payload|)
  {
    var next := at + HEADER_LEN + |frame.payload|;
    assert all[at..][HEADER_LEN + |frame.payload|..] == all[next..];
    ParseFound(f, all[at..], frame);
    Associate(done, [frame], Parse(f, all[next..]).frames);
  }

  lemma ParseFound(f: Format, s: seq<byte>, frame: Frame)
    requires |s| >= HEADER_LEN && IsFound(f, s, Whole(frame))
    ensures HEADER_LEN + |frame.payload| <= |s|
    ensures var p := Parse(f, s[HEADER_LEN + |frame.payload|..]);
      Parse(f, s) == Parsed([frame] + p.frames, p.rest)
  {
  }

  lemma ScanBegins(f: Format, all: seq<byte>)
    ensures Scanned(f, all, [], 0)
  {
    assert all[0..] == all;
  }

  /** Where too few bytes are left for a header, nothing more can be dispatched. */
  lemma ScanEnds(f: Format, all: seq<byte>, done: seq<Frame>, at: nat)
    requires at <= |all| < at + HEADER_LEN && Scanned(f, all, done, at)
    ensures Parse(f, all) == Parsed(done, all[at..])
  {
    assert done + [] == done;
  }

  /** Nor where a frame is still arriving. */
  lemma FrameArriving(f: Format, all: seq<byte>, done: seq<Frame>, at: nat)
    requires at <= |all| && Scanned(f, all, done, at)
    requires |all| - at >= HEADER_LEN && GoodHeader(f, all[at..]) && |all| - at < HEADER_LEN + Declared(all[at..])
    ensures Parse(f, all) == Parsed(done, all[at..])
  {
    assert done + [] == done;
  }

  /** Where that leaves the scan. */
  ghost predicate Moved(f: Format, all: seq<byte>, done: seq<Frame>, at: nat, found: Found)
    requires at + HEADER_LEN <= |all|
  {
    match found
    case Skip => Scanned(f, all, done, at + 1)
    case Short => Parse(f, all) == Parsed(done, all[at..])
    case Whole(frame) =>
      var next := at + HEADER_LEN + |frame.payload|;
      next <= |all| && Scanned(f, all, done + [frame], next)
  }

  lemma FoundSkip(f: Format, all: seq<byte>, done: seq<Frame>, at: nat)
    requires at + HEADER_LEN <= |all| && Scanned(f, all, done, at) && IsFound(f, all[at..], Skip)
    ensures Moved(f, all, done, at, Skip)
  {
    AfterSkip(f, all, done, at);
  }

  lemma FoundWhole(f: Format, all: seq<byte>, done: seq<Frame>, at: nat, frame: Frame)
    requires at + HEADER_LEN <= |all| && Scanned(f, all, done, at) && IsFound(f, all[at..], Whole(frame))
    ensures Moved(f, all, done, at, Whole(frame))
  {
    AfterFrame(f, all, done, at, frame);
  }

  lemma FoundAt(f: Format, all: seq<byte>, done: seq<Frame>, at: nat, found: Found)
    requires at + HEADER_LEN <= |all| && Scanned(f, all, done, at) && IsFound(f, all[at..], found)
    ensures Moved(f, all, done, at, found)
  {
    match found
    case Skip => FoundSkip(f, all, done, at);
    case Short => FrameArriving(f, all, done, at);
    case Whole(frame) => FoundWhole(f, all, done, at, frame);
  }

  method Classify(f: Format, p: seq<byte>) returns (found: Found)
    requires |p| >= HEADER_LEN
    ensures IsFound(f, p, found)
    ensures found == Skip <==> !Passes(f, p)
    ensures found.Whole? <==> Passes(f, p) && |p| >= 10 + Field(p, 6)
    ensures found.Whole? ==> found.frame == Frame(p[2], p[10..10 + Field(p, 6)])
  {
    var n := Le16(p[6], p[7]);
    if Le16(p[0], p[1]) != f.magic || f.crc(p[..8]) != Le16(p[8], p[9]) || n > MAX_PAYLOAD {
      return Skip;
    }
    if |p| < HEADER_LEN + n {
      return Short;
    }
    found := Whole(Frame(p[2], p[HEADER_LEN..HEADER_LEN + n]));
  }

  /** The whole state of the reader, changed in place as the source changes it. */
  class Reassembler {
    const fmt: Format
    const buf: array<byte>          // rx_buf
    var len: nat                    // rx_len
    var handlerSet: bool            // frame_handler != NULL
    var dispatched: seq<Frame>      // the calls made to frame_handler, in order

    ghost predicate Valid()
      reads this
    {
      buf.Length == RX_BUF && len <= RX_BUF
    }

    ghost function Pending(): (s: seq<byte>)
      requires Valid()
      reads this, buf
      ensures |s| == len
    {
      buf[..len]
    }

    constructor (f: Format)
      ensures Valid() && fresh(buf) && fmt == f
      ensures Pending() == [] && dispatched == [] && !handlerSet
    {
      fmt := f;
      buf := new byte[RX_BUF](_ => 0);
      len := 0;
      handlerSet := false;
      dispatched := [];
    }

    /** memmove(rx_buf, rx_buf + from, n) */
    method MoveDown(from: nat, n: nat)
      requires Valid() && from + n <= RX_BUF
      modifies buf
      ensures buf[..n] == old(buf[from..from + n])
    {
      for i := 0 to n
        invariant forall k :: 0 <= k < i ==> buf[k] == old(buf[from + k])
        invariant forall k :: i <= k < buf.Length ==> buf[k] == old(buf[k])
      {
        buf[i] := buf[from + i];
      }
    }

    /** Consumes the whole frames in the buffer and applies the overflow rule. */
    method Drain()
      requires Valid()
      modifies this`len, this`dispatched, buf
      ensures Valid() && len < RX_BUF
      ensures var p := Parse(fmt, old(Pending()));
        && dispatched == old(dispatched) + (if handlerSet then p.frames else [])
        && Pending() == Kept(p.rest)
    {
      ghost var all := Pending();
      var at := Scan();
      if at > 0 {
        MoveDown(at, len - at);
        len := len - at;
      }
      assert Pending() == all[at..];
      if len == RX_BUF {
        MoveDown(RX_BUF - HEADER_LEN, HEADER_LEN);
        len := HEADER_LEN;
      }
    }

    /** What drain() makes of the bytes at `at`. */
    method Look(at: nat, ghost all: seq<byte>, ghost done: seq<Frame>) returns (found: Found)
      requires Valid() && all == Pending() && at + HEADER_LEN <= len && Scanned(fmt, all, done, at)
      ensures Moved(fmt, all, done, at, found)
    {
      assert buf[at..len] == all[at..];
      found := Classify(fmt, buf[at..len]);
      FoundAt(fmt, all, done, at, found);
    }

    method Dispatch(frame: Frame, ghost was: seq<Frame>, ghost done: seq<Frame>)
      requires dispatched == was + (if handlerSet then done else [])
      modifies this`dispatched
      ensures dispatched == was + (if handlerSet then done + [frame] else [])
    {
      if handlerSet {
        dispatched := dispatched + [frame];
        Associate(was, done, [frame]);
      }
    }

    /** The loop of drain(): dispatches frames and returns where the bytes still in
        flight begin. */
    method Scan() returns (at: nat)
      requires Valid()
      modifies this`dispatched
      ensures at <= len && Parse(fmt, Pending()).rest == Pending()[at..]
      ensures dispatched == old(dispatched) + (if handlerSet then Parse(fmt, Pending()).frames else [])
    {
      at := 0;
      ghost var all := Pending();
      ghost var done: seq<Frame> := [];
      ScanBegins(fmt, all);
      while len - at >= HEADER_LEN
        invariant at <= len && Scanned(fmt, all, done, at)
        invariant dispatched == old(dispatched) + (if handlerSet then done else [])
      {
        var found := Look(at, all, done);
        match found
        case Skip => at := at + 1;
        case Short => return;
        case Whole(frame) =>
          Dispatch(frame, old(dispatched), done);
          done := done + [frame];
          at := at + HEADER_LEN + |frame.payload|;
      }
      ScanEnds(fmt, all, done, at);
    }

    /** ring_buf_get() into what is left of the buffer. */
    method Fill(chunk: seq<byte>)
      requires Valid() && len < RX_BUF
      modifies this`len, buf
      ensures Valid()
      ensures var room := RX_BUF - old(len);
        Pending() == old(Pending()) + chunk[..if |chunk| < room then |chunk| else room]
    {
      var room := RX_BUF - len;
      var take := if |chunk| < room then |chunk| else room;
      ghost var before := Pending();
      for i := 0 to take
        modifies buf
        invariant Valid() && len == old(len)
        invariant forall k :: 0 <= k < len ==> buf[k] == before[k]
        invariant forall k :: 0 <= k < i ==> buf[len + k] == chunk[k]
      {
        buf[len + i] := chunk[i];
      }
      len := len + take;
      assert Pending() == before + chunk[..take];
    }

    /** One pass of reader() over a read that returned bytes. */
    method Read(chunk: seq<byte>)
      requires Valid() && len < RX_BUF && 1 <= |chunk| <= CHUNK
      modifies this`len, this`dispatched, buf
      ensures Valid() && len < RX_BUF
      ensures var p := Feed(fmt, old(Pending()), chunk);
        && dispatched == old(dispatched) + (if handlerSet then p.frames else [])
        && Pending() == p.rest
    {
      Fill(chunk);
      Drain();
    }

    /** reader(), over the reads that return bytes. */
    method Run(chunks: seq<seq<byte>>)
      requires Valid() && len < RX_BUF && handlerSet && Reads(chunks)
      modifies this`len, this`dispatched, buf
      ensures Valid() && len < RX_BUF
      ensures dispatched == old(dispatched) + FeedAll(fmt, old(Pending()), chunks).frames
      ensures Pending() == FeedAll(fmt, old(Pending()), chunks).rest
      ensures LieIn(fmt, old(Pending()) + Stored(fmt, old(Pending()), chunks), dispatched[|old(dispatched)|..], Pending())
    {
      ghost var start, was := Pending(), dispatched;
      ghost var p := Parsed([], start);
      for i := 0 to |chunks|
        invariant Valid() && len < RX_BUF
        invariant p == FeedAll(fmt, start, chunks[..i])
        invariant dispatched == was + p.frames && Pending() == p.rest
      {
        ghost var q := ReadSnoc(fmt, was, start, chunks, i, p);
        Read(chunks[i]);
        p := q;
      }
      assert chunks[..|chunks|] == chunks;
      AllLieIn(fmt, start, chunks);
      assert dispatched[|was|..] == p.frames;
    }
  }

  /** Of a read, what fits. */
  function StoredNow(pending: seq<byte>, chunk: seq<byte>): (s: seq<byte>)
    requires |pending| < RX_BUF
  {
    var room := RX_BUF - |pending|;
    chunk[..if |chunk| < room then |chunk| else room]
  }

  /** The bytes the reads put into the buffer. */
  function Stored(f: Format, pending: seq<byte>, chunks: seq<seq<byte>>): (s: seq<byte>)
    requires |pending| < RX_BUF
    decreases |chunks|
  {
    if chunks == [] then []
    else StoredNow(pending, chunks[0]) + Stored(f, Feed(f, pending, chunks[0]).rest, chunks[1..])
  }

  lemma FeedLiesIn(f: Format, pending: seq<byte>, chunk: seq<byte>)
    requires |pending| < RX_BUF
    ensures var p := Feed(f, pending, chunk); LieIn(f, pending + StoredNow(pending, chunk), p.frames, p.rest)
  {
    var s := pending + StoredNow(pending, chunk);
    var rest := Parse(f, s).rest;
    FramesLieIn(f, s);
    LieInLess(f, s, Parse(f, s).frames, rest, if |rest| == RX_BUF then RX_BUF - HEADER_LEN else 0);
    assert rest[0..] == rest;
  }

  lemma ReadThenMore(f: Format, pending: seq<byte>, now: seq<byte>, later: seq<byte>, p: Parsed, q: Parsed)
    requires LieIn(f, pending + now, p.frames, p.rest) && LieIn(f, p.rest + later, q.frames, q.rest)
    ensures LieIn(f, pending + (now + later), p.frames + q.frames, q.rest)
  {
    LieInMore(f, pending + now, p.frames, p.rest, later);
    LieInTurn(f, pending + now + later, p.frames, p.rest + later, q.frames, q.rest);
    assert pending + (now + later) == pending + now + later;
  }

  /** Over any reads whatever, overflows included: what the reader dispatches lies in the
      bytes it stored, in order, each frame behind a header that passed the three tests
      and none sharing a byte with another; and so does what it still holds. */
  lemma {:induction false} AllLieIn(f: Format, pending: seq<byte>, chunks: seq<seq<byte>>)
    requires |pending| < RX_BUF
    ensures var p := FeedAll(f, pending, chunks);
      LieIn(f, pending + Stored(f, pending, chunks), p.frames, p.rest)
    decreases |chunks|
  {
    if chunks == [] {
      LieNone(f, pending + [], 0);
      assert (pending + [])[0..] == pending;
    } else {
      var p := Feed(f, pending, chunks[0]);
      FeedLiesIn(f, pending, chunks[0]);
      AllLieIn(f, p.rest, chunks[1..]);
      ReadThenMore(f, pending, StoredNow(pending, chunks[0]), Stored(f, p.rest, chunks[1..]), p, FeedAll(f, p.rest, chunks[1..]));
    }
  }

  /** Two runs of the reader, one after the other. */
  lemma {:induction false} FeedAllSnoc(f: Format, pending: seq<byte>, chunks: seq<seq<byte>>, last: seq<byte>)
    requires |pending| < RX_BUF
    ensures var p := FeedAll(f, pending, chunks);
      var q := Feed(f, p.rest, last);
      FeedAll(f, pending, chunks + [last]) == Parsed(p.frames + q.frames, q.rest)
    decreases |chunks|
  {
    if chunks == [] {
      assert chunks + [last] == [last] && [last][1..] == [];
      var q := Feed(f, pending, last);
      assert q.frames + [] == [] + q.frames;
    } else {
      var p := Feed(f, pending, chunks[0]);
      FeedAllSnoc(f, p.rest, chunks[1..], last);
      assert (chunks + [last])[1..] == chunks[1..] + [last] && (chunks + [last])[0] == chunks[0];
      var m := FeedAll(f, p.rest, chunks[1..]);
      var q := Feed(f, m.rest, last);
      Associate(p.frames, m.frames, q.frames);
    }
  }

  lemma ReadSnoc(f: Format, was: seq<Frame>, start: seq<byte>, chunks: seq<seq<byte>>, i: nat, p: Parsed)
    returns (r: Parsed)
    requires |start| < RX_BUF && i < |chunks| && p == FeedAll(f, start, chunks[..i])
    ensures r == FeedAll(f, start, chunks[..i + 1])
    ensures was + r.frames == was + p.frames + Feed(f, p.rest, chunks[i]).frames
    ensures r.rest == Feed(f, p.rest, chunks[i]).rest
  {
    FeedAllSnoc(f, start, chunks[..i], chunks[i]);
    assert chunks[..i + 1] == chunks[..i] + [chunks[i]];
    r := FeedAll(f, start, chunks[..i + 1]);
    Associate(was, p.frames, Feed(f, p.rest, chunks[i]).frames);
  }

  /** Between reads the buffer is never full, so every read takes at least one byte,
      and what it holds is either fully scanned or the ten bytes an overflow kept. */
  lemma {:induction false} BufferNeverFull(f: Format, pending: seq<byte>, chunks: seq<seq<byte>>)
    requires |pending| < RX_BUF && Reads(chunks)
    requires Settled(f, pending) || |pending| == HEADER_LEN
    ensures var r := FeedAll(f, pending, chunks).rest;
      |r| < RX_BUF && (Settled(f, r) || |r| == HEADER_LEN)
    decreases |chunks|
  {
    if chunks != [] {
      var room := RX_BUF - |pending|;
      var take := if |chunks[0]| < room then |chunks[0]| else room;
      assert take >= 1;
      RestIsSettled(f, pending + chunks[0][..take]);
      BufferNeverFull(f, Feed(f, pending, chunks[0]).rest, chunks[1..]);
    }
  }

  lemma OneRead(f: Format, pending: seq<byte>, chunk: seq<byte>, tail: seq<byte>)
    requires |pending| < RX_BUF && Settled(f, pending) && |chunk| <= CHUNK
    requires DeclaresAtMost(f, pending + chunk + tail, SAFE_PAYLOAD)
    ensures var p := Parse(f, pending + chunk);
      && |p.rest| < RX_BUF && Feed(f, pending, chunk) == p && Settled(f, p.rest)
      && DeclaresAtMost(f, p.rest + tail, SAFE_PAYLOAD)
  {
    var a := pending + chunk;
    assert a + tail == pending + (chunk + tail);
    DeclaresAtMostSplit(f, pending, chunk + tail, SAFE_PAYLOAD);
    RestIsShort(f, pending, SAFE_PAYLOAD);
    assert chunk[..|chunk|] == chunk;
    DeclaresAtMostSplit(f, a, tail, SAFE_PAYLOAD);
    RestIsShort(f, a, SAFE_PAYLOAD);
    RestIsSettled(f, a);
  }

  /** Chunk independence: however the stream was cut, the reader dispatches exactly
      the frames of the whole stream and keeps exactly what is still in flight. */
  lemma {:induction false} ChunkIndependence(f: Format, pending: seq<byte>, chunks: seq<seq<byte>>)
    requires |pending| < RX_BUF && Settled(f, pending) && Reads(chunks)
    requires DeclaresAtMost(f, pending + Concat(chunks), SAFE_PAYLOAD)
    ensures FeedAll(f, pending, chunks) == Parse(f, pending + Concat(chunks))
    decreases |chunks|
  {
    if chunks == [] {
      assert pending + [] == pending;
    } else {
      var chunk, tail := chunks[0], Concat(chunks[1..]);
      var a := pending + chunk;
      assert pending + Concat(chunks) == a + tail == pending + (chunk + tail);
      OneRead(f, pending, chunk, tail);
      ChunkIndependence(f, Parse(f, a).rest, chunks[1..]);
      ParseAppend(f, a, tail);
    }
  }

  /** Reads too short to complete a frame only accumulate. */
  lemma {:induction false} FeedAccumulates(f: Format, pending: seq<byte>, chunks: seq<seq<byte>>, last: seq<byte>)
    requires |pending| + |Concat(chunks)| < RX_BUF
    requires forall n :: 0 <= n <= |pending + Concat(chunks)| ==> Settled(f, (pending + Concat(chunks))[..n])
    ensures FeedAll(f, pending, chunks + [last]) == Feed(f, pending + Concat(chunks), last)
    decreases |chunks|
  {
    var whole := pending + Concat(chunks);
    if chunks == [] {
      assert chunks + [last] == [last];
      assert whole == pending;
      var p := Feed(f, pending, last);
      assert FeedAll(f, p.rest, [last][1..]) == Parsed([], p.rest);
      assert p.frames + [] == p.frames;
    } else {
      var chunk := chunks[0];
      assert chunk[..|chunk|] == chunk;
      assert whole == pending + chunk + Concat(chunks[1..]);
      assert whole[..|pending + chunk|] == pending + chunk;
      assert Settled(f, pending + chunk);
      FeedAccumulates(f, pending + chunk, chunks[1..], last);
      assert (chunks + [last])[1..] == chunks[1..] + [last];
      assert (chunks + [last])[0] == chunk;
      var q := FeedAll(f, pending + chunk, chunks[1..] + [last]);
      assert [] + q.frames == q.frames;
    }
  }

  /** Every proper prefix of one frame is still in flight. */
  lemma PrefixIsSettled(f: Format, kind: byte, seqNo: uint16, payload: seq<byte>, n: nat)
    requires |payload| <= MAX_PAYLOAD && n < HEADER_LEN + |payload|
    ensures Settled(f, Encode(f, kind, seqNo, payload)[..n])
    ensures DeclaresAtMost(f, Encode(f, kind, seqNo, payload)[..n], |payload|)
  {
    var s := Encode(f, kind, seqNo, payload);
    if n >= HEADER_LEN {
      EncodeIsGood(f, kind, seqNo, payload, []);
      assert s + [] == s;
      assert s == s[..n] + s[n..];
      GoodHeaderPrefix(f, s[..n], s[n..]);
    }
  }

  /** `s` cut into reads of 64 bytes and a shorter last one. */
  function Cut(s: seq<byte>): (chunks: seq<seq<byte>>)
    ensures Concat(chunks) == s && Reads(chunks)
    decreases |s|
  {
    if s == [] then []
    else if |s| <= CHUNK then
      assert [s][1..] == [];
      [s]
    else
      var r := Cut(s[CHUNK..]);
      assert ([s[..CHUNK]] + r)[1..] == r;
      [s[..CHUNK]] + r
  }

  lemma {:induction false} ConcatAppend(chunks: seq<seq<byte>>, last: seq<byte>)
    ensures Concat(chunks + [last]) == Concat(chunks) + last
    decreases |chunks|
  {
    if chunks == [] {
      assert chunks + [last] == [last];
      assert [last][1..] == [];
    } else {
      ConcatAppend(chunks[1..], last);
      assert (chunks + [last])[1..] == chunks[1..] + [last];
    }
  }

  /** What a whole parse of the losing stream leaves, and what one byte fewer leaves. */
  lemma LosingParse(f: Format, n: nat)
    requires n <= 63
    ensures var frame := Encode(f, 0, 0, Zeros(440));
      && Parse(f, frame + frame[..n]).rest == frame[..n]
      && DeclaresAtMost(f, frame + frame[..n], 440)
  {
    var frame := Encode(f, 0, 0, Zeros(440));
    PrefixIsSettled(f, 0, 0, Zeros(440), n);
    ParseEncode(f, 0, 0, Zeros(440), frame[..n]);
    EncodeIsGood(f, 0, 0, Zeros(440), frame[..n]);
  }

  /** 449 bytes pending, then a read of 64 of which only 63 fit. */
  lemma LosingRead(f: Format)
    ensures var frame := Encode(f, 0, 0, Zeros(440));
      Feed(f, frame[..449], frame[449..] + frame[..63]).rest == frame[..62]
  {
    var frame := Encode(f, 0, 0, Zeros(440));
    var last := frame[449..] + frame[..63];
    assert frame[..449] + last[..63] == frame + frame[..62];
    LosingParse(f, 62);
  }

  /** One byte is lost at 440 payload bytes, whatever the magic number and the CRC. */
  lemma LossAt440(f: Format) returns (chunks: seq<seq<byte>>)
    ensures Reads(chunks) && DeclaresAtMost(f, Concat(chunks), 440)
    ensures |FeedAll(f, [], chunks).rest| == 62 && |Parse(f, Concat(chunks)).rest| == 63
  {
    var frame := Encode(f, 0, 0, Zeros(440));
    var head, last := frame[..449], frame[449..] + frame[..63];
    chunks := Cut(head) + [last];
    LosingFeed(f);
    ConcatAppend(Cut(head), last);
    assert head + last == frame + frame[..63];
    LosingParse(f, 63);
  }

  lemma LosingFeed(f: Format)
    ensures var frame := Encode(f, 0, 0, Zeros(440));
      FeedAll(f, [], Cut(frame[..449]) + [frame[449..] + frame[..63]]).rest == frame[..62]
  {
    var frame := Encode(f, 0, 0, Zeros(440));
    var head := frame[..449];
    assert [] + Concat(Cut(head)) == head;
    forall n | 0 <= n <= 449 ensures Settled(f, head[..n]) {
      assert head[..n] == frame[..n];
      PrefixIsSettled(f, 0, 0, Zeros(440), n);
    }
    FeedAccumulates(f, [], Cut(head), frame[449..] + frame[..63]);
    LosingRead(f);
  }

  lemma {:induction false} DeclaresAtMostWeaken(f: Format, s: seq<byte>, n: nat, m: nat)
    requires DeclaresAtMost(f, s, n) && n <= m
    ensures DeclaresAtMost(f, s, m)
    decreases |s|
  {
    if |s| >= HEADER_LEN {
      if !GoodHeader(f, s) {
        DeclaresAtMostWeaken(f, s[1..], n, m);
      } else if |s| >= HEADER_LEN + Declared(s) {
        DeclaresAtMostWeaken(f, s[HEADER_LEN + Declared(s)..], n, m);
      }
    }
  }

  /** No stream whose accepted headers declare at most `n` bytes can be split so that
      the fixed buffer loses anything. */
  ghost predicate Lossless(f: Format, n: nat) {
    forall chunks :: Reads(chunks) && DeclaresAtMost(f, Concat(chunks), n) ==>
      FeedAll(f, [], chunks) == Parse(f, Concat(chunks))
  }

  /** The exact bound. */
  lemma LosslessExactly(f: Format, n: nat)
    ensures Lossless(f, n) <==> n <= 439
  {
    if n <= SAFE_PAYLOAD {
      forall chunks | Reads(chunks) && DeclaresAtMost(f, Concat(chunks), n)
        ensures FeedAll(f, [], chunks) == Parse(f, Concat(chunks))
      {
        DeclaresAtMostWeaken(f, Concat(chunks), n, SAFE_PAYLOAD);
        assert [] + Concat(chunks) == Concat(chunks);
        ChunkIndependence(f, [], chunks);
      }
    } else {
      var chunks := LossAt440(f);
      DeclaresAtMostWeaken(f, Concat(chunks), 440, n);
    }
  }

  lemma {:induction false} StreamDeclares(f: Format, xs: seq<Sent>, n: nat)
    requires forall x :: x in xs ==> |x.payload| <= n
    ensures DeclaresAtMost(f, Stream(f, xs), n)
    decreases |xs|
  {
    if xs != [] {
      EncodeIsGood(f, xs[0].kind, xs[0].seqNo, xs[0].payload, Stream(f, xs[1..]));
      StreamDeclares(f, xs[1..], n);
    }
  }

  /** Frames of at most 439 payload bytes all reach the handler, however they are cut. */
  lemma IntactFramesArrive(f: Format, xs: seq<Sent>, chunks: seq<seq<byte>>)
    requires Reads(chunks) && Concat(chunks) == Stream(f, xs)
    requires forall x :: x in xs ==> |x.payload| <= 439
    ensures FeedAll(f, [], chunks) == Parsed(Frames(xs), [])
  {
    StreamDeclares(f, xs, SAFE_PAYLOAD);
    assert [] + Concat(chunks) == Stream(f, xs) == Stream(f, xs) + [];
    ChunkIndependence(f, [], chunks);
    ParseStream(f, xs, []);
    assert Frames(xs) + [] == Frames(xs);
  }
}
