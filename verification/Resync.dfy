/** What one lost byte costs: resynchronisation in a stream of valid frames. */
module Resync {
  import opened Wire
  import opened Parser
  import opened Streams

  /** No position before `n` passes for the start of a frame. */
  ghost predicate NoAccident(f: Format, s: seq<byte>, n: nat) {
    forall i :: 0 <= i < n && |s| - i >= HEADER_LEN ==> !GoodHeader(f, s[i..])
  }

  lemma NoAccidentTail(f: Format, s: seq<byte>, n: nat)
    requires 0 < n <= |s| && NoAccident(f, s, n)
    ensures NoAccident(f, s[1..], n - 1)
    ensures |s| >= HEADER_LEN ==> !GoodHeader(f, s)
  {
    assert s[0..] == s;
    forall i | 0 <= i < n - 1 && |s[1..]| - i >= HEADER_LEN ensures !GoodHeader(f, s[1..][i..]) {
      assert s[1..][i..] == s[i + 1..];
    }
  }

  /** The scan walks over damage to the next intact frame start. */
  lemma {:induction false} SkipDamage(f: Format, s: seq<byte>, n: nat)
    requires n <= |s| && NoAccident(f, s, n)
    requires |s| - n >= HEADER_LEN || n == 0
    ensures Parse(f, s) == Parse(f, s[n..])
    decreases n
  {
    if n == 0 {
      assert s[0..] == s;
    } else {
      NoAccidentTail(f, s, n);
      SkipDamage(f, s[1..], n - 1);
      assert s[1..][n - 1..] == s[n..];
    }
  }

  /** Damage at the end of a stream is never dispatched. */
  lemma {:induction false} SkipToEnd(f: Format, s: seq<byte>)
    requires NoAccident(f, s, |s|)
    ensures Parse(f, s).frames == []
    decreases |s|
  {
    if |s| >= HEADER_LEN {
      NoAccidentTail(f, s, |s|);
      SkipToEnd(f, s[1..]);
    }
  }

  /** `s` with the byte at `at` lost. */
  function Without(s: seq<byte>, at: nat): (r: seq<byte>)
    requires at < |s|
    ensures |r| == |s| - 1
  {
    s[..at] + s[at + 1..]
  }

  lemma WithoutMiddle(a: seq<byte>, b: seq<byte>, c: seq<byte>, at: nat)
    requires at < |b|
    ensures Without(a + b + c, |a| + at) == a + (Without(b, at) + c)
  {
  }

  /** Damage of any kind followed by intact frames: the damage alone is lost. */
  lemma OnlyTheDamage(f: Format, damage: seq<byte>, after: seq<Sent>)
    requires NoAccident(f, damage + Stream(f, after), |damage|)
    ensures Parse(f, damage + Stream(f, after)).frames == Frames(after)
  {
    var s := damage + Stream(f, after);
    if after == [] {
      assert s == damage;
      SkipToEnd(f, s);
    } else {
      SkipDamage(f, s, |damage|);
      assert s[|damage|..] == Stream(f, after);
      ParseStream(f, after, []);
      assert Stream(f, after) + [] == Stream(f, after);
      assert Frames(after) + [] == Frames(after);
    }
  }

  /** What is received of `before`, `b` and `c` when byte `at` of `b` is lost. */
  function Heard(f: Format, before: seq<Sent>, b: seq<byte>, c: seq<byte>, at: nat): (fs: seq<Frame>)
    requires at < |b|
  {
    var lead := Stream(f, before);
    Parse(f, Without(lead + b + c, |lead| + at)).frames
  }

  /** A byte lost behind intact frames leaves those as they were. */
  lemma Splice(f: Format, before: seq<Sent>, b: seq<byte>, c: seq<byte>, at: nat, fs: seq<Frame>)
    requires at < |b| && Parse(f, Without(b, at) + c).frames == fs
    ensures Heard(f, before, b, c, at) == Frames(before) + fs
  {
    WithoutMiddle(Stream(f, before), b, c, at);
    ParseStream(f, before, Without(b, at) + c);
  }

  /** A byte lost from a header costs that frame and no other. */
  lemma LostHeaderByte(f: Format, before: seq<Sent>, hit: Sent, after: seq<Sent>, at: nat)
    requires at < HEADER_LEN
    requires NoAccident(f, Without(Bytes(f, hit), at) + Stream(f, after), |Bytes(f, hit)| - 1)
    ensures Heard(f, before, Bytes(f, hit), Stream(f, after), at) == Frames(before) + Frames(after)
  {
    OnlyTheDamage(f, Without(Bytes(f, hit), at), after);
    Splice(f, before, Bytes(f, hit), Stream(f, after), at, Frames(after));
  }

  /** What the reader takes for the payload when one of its bytes was lost: the last
      byte comes from the header of the frame behind it. */
  function Altered(f: Format, hit: Sent, next: Sent, at: nat): (r: Sent)
    requires at < |hit.payload|
    ensures |r.payload| == |hit.payload|
    ensures r.kind == hit.kind
  {
    AnyFrame.Sent(hit.kind, hit.seqNo, Without(hit.payload, at) + [Bytes(f, next)[0]])
  }

  /** The bytes after the loss read as the altered frame and the rest of the next one. */
  lemma AlteredBytes(f: Format, hit: Sent, next: Sent, at: nat)
    requires at < |hit.payload|
    ensures Without(Bytes(f, hit), HEADER_LEN + at) + Bytes(f, next)
         == Bytes(f, Altered(f, hit, next, at)) + Bytes(f, next)[1..]
  {
    var header := Bytes(f, hit)[..HEADER_LEN];
    assert Bytes(f, hit) == header + hit.payload;
    assert Bytes(f, Altered(f, hit, next, at)) == header + Altered(f, hit, next, at).payload;
    assert Without(Bytes(f, hit), HEADER_LEN + at) == header + Without(hit.payload, at);
    assert Bytes(f, next) == [Bytes(f, next)[0]] + Bytes(f, next)[1..];
  }

  /** What is received from the damaged frame on. */
  function AfterLoss(f: Format, hit: Sent, next: Sent, after: seq<Sent>, at: nat): (fs: seq<Frame>)
    requires at < |hit.payload|
    ensures |fs| == 1 + |after|
  {
    [Received(Altered(f, hit, next, at))] + Frames(after)
  }

  lemma AlteredParse(f: Format, hit: Sent, next: Sent, after: seq<Sent>, at: nat)
    requires at < |hit.payload|
    requires NoAccident(f, Bytes(f, next)[1..] + Stream(f, after), |Bytes(f, next)| - 1)
    ensures Parse(f, Without(Bytes(f, hit), HEADER_LEN + at) + (Bytes(f, next) + Stream(f, after))).frames
         == AfterLoss(f, hit, next, after, at)
  {
    var altered := Altered(f, hit, next, at);
    var tail := Bytes(f, next)[1..] + Stream(f, after);
    AlteredBytes(f, hit, next, at);
    Regroup(Without(Bytes(f, hit), HEADER_LEN + at), Bytes(f, next), Stream(f, after),
            Bytes(f, altered), Bytes(f, next)[1..]);
    OnlyTheDamage(f, Bytes(f, next)[1..], after);
    ParseEncode(f, altered.kind, altered.seqNo, altered.payload, tail);
  }

  lemma Regroup(a: seq<byte>, b: seq<byte>, c: seq<byte>, d: seq<byte>, e: seq<byte>)
    requires a + b == d + e
    ensures a + (b + c) == d + (e + c)
  {
    assert a + (b + c) == (a + b) + c;
    assert d + (e + c) == (d + e) + c;
  }

  /** A byte lost from a payload costs the frame after it as well: the damaged frame
      is dispatched altered, the next one is lost, the others arrive unchanged. */
  lemma LostPayloadByte(f: Format, before: seq<Sent>, hit: Sent, next: Sent, after: seq<Sent>, at: nat)
    requires at < |hit.payload|
    requires NoAccident(f, Bytes(f, next)[1..] + Stream(f, after), |Bytes(f, next)| - 1)
    ensures Heard(f, before, Bytes(f, hit), Bytes(f, next) + Stream(f, after), HEADER_LEN + at)
         == Frames(before) + AfterLoss(f, hit, next, after, at)
  {
    var b, c, fs := Bytes(f, hit), Bytes(f, next) + Stream(f, after), AfterLoss(f, hit, next, after, at);
    assert Parse(f, Without(b, HEADER_LEN + at) + c).frames == fs by {
      AlteredParse(f, hit, next, after, at);
    }
    Splice(f, before, b, c, HEADER_LEN + at, fs);
  }
}
