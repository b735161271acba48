/** The frame format shared by both directions of the link.

    The encoder itself (frame.c) and its constants live in another repository, so
    the magic number, the CRC and the frame-type codes are a parameter here: every
    result holds for any choice of them. */
module Wire {
  type byte = x: int | 0 <= x < 0x100
  type int8 = x: int | -0x80 <= x < 0x80
  type uint16 = x: int | 0 <= x < 0x1_0000
  type uint32 = x: int | 0 <= x < 0x1_0000_0000
  type uint64 = x: int | 0 <= x < 0x1_0000_0000_0000_0000

  const HEADER_LEN := 10
  const MAX_PAYLOAD := 4096

  /** The frame types this firmware sends or receives. */
  datatype FrameType =
    | OnePacket | PacketBatch | BleBatch | Log
    | Stats | LinkStatus | Heartbeat | ControlReply
    | ControlCmd | BleFilter | BleKeys

  /** What frame.c decides and this model leaves open. */
  datatype Format = Format(magic: uint16, crc: seq<byte> -> uint16, code: FrameType -> byte)
  {
    /** No two frame types share a code. */
    ghost predicate Distinct() {
      forall t, u :: code(t) == code(u) ==> t == u
    }
  }

  /** A frame as a parser hands it over: the type byte and the payload. */
  datatype Frame = Frame(kind: byte, payload: seq<byte>)

  datatype Option<T> = None | Some(value: T)

  /** A frame offered to the link. */
  datatype Offer = Offer(kind: FrameType, payload: seq<byte>)

  /** One call to sn_link_send and whether it returned 0. */
  datatype Attempt = Attempt(offer: Offer, taken: bool)

  /** A uint32_t counter going up, its wrap included. */
  function Add32(x: uint32, n: nat): (r: uint32) {
    (x + n) % 0x1_0000_0000
  }

  lemma ModAdd(x: nat, n: nat)
    ensures Add32(x % 0x1_0000_0000, n) == (x + n) % 0x1_0000_0000
  {
  }

  /** The `n` least significant bytes of `v`, least significant first. */
  function ToLe(v: nat, n: nat): (s: seq<byte>)
    ensures |s| == n
  {
    if n == 0 then [] else [v % 256] + ToLe(v / 256, n - 1)
  }

  function FromLe(s: seq<byte>): (v: nat) {
    if s == [] then 0 else s[0] + 256 * FromLe(s[1..])
  }

  function Pow256(n: nat): (p: nat)
    ensures p >= 1
  {
    if n == 0 then 1 else 256 * Pow256(n - 1)
  }

  lemma {:induction false} LeRoundTrip(v: nat, n: nat)
    requires v < Pow256(n)
    ensures FromLe(ToLe(v, n)) == v
  {
    if n > 0 {
      LeRoundTrip(v / 256, n - 1);
      assert ToLe(v, n)[1..] == ToLe(v / 256, n - 1);
    }
  }

  lemma Le16RoundTrip(v: uint16)
    ensures FromLe(ToLe(v, 2)) == v
  {
    assert Pow256(2) == 0x1_0000 by { assert Pow256(1) == 256; }
    LeRoundTrip(v, 2);
  }

  lemma Le32RoundTrip(v: uint32)
    ensures FromLe(ToLe(v, 4)) == v
  {
    assert Pow256(4) == 0x1_0000_0000 by {
      assert Pow256(2) == 0x1_0000 by { assert Pow256(1) == 256; }
      assert Pow256(3) == 256 * Pow256(2);
    }
    LeRoundTrip(v, 4);
  }

  lemma Le64RoundTrip(v: uint64)
    ensures FromLe(ToLe(v, 8)) == v
  {
    assert Pow256(8) == 0x1_0000_0000_0000_0000 by {
      assert Pow256(2) == 0x1_0000 by { assert Pow256(1) == 256; }
      assert Pow256(4) == 0x1_0000_0000 by { assert Pow256(3) == 256 * Pow256(2); }
      assert Pow256(6) == 0x1_0000_0000_0000 by { assert Pow256(5) == 256 * Pow256(4); }
      assert Pow256(7) == 256 * Pow256(6);
    }
    LeRoundTrip(v, 8);
  }

  function Zeros(n: nat): (s: seq<byte>)
    ensures |s| == n
  {
    seq(n, _ => 0)
  }

  /** Two bytes read the way drain() reads them. */
  function Le16(lo: byte, hi: byte): (v: uint16) {
    lo + 256 * hi
  }

  lemma ToLe16(v: uint16)
    ensures ToLe(v, 2) == [v % 256, v / 256]
    ensures Le16(ToLe(v, 2)[0], ToLe(v, 2)[1]) == v
  {
    assert ToLe(v / 256, 1) == [(v / 256) % 256] + ToLe(v / 256 / 256, 0);
  }

  lemma Le16Reads(v: uint16)
    ensures Le16(ToLe(v, 2)[0], ToLe(v, 2)[1]) == v
  {
    ToLe16(v);
  }

  /** The eight header bytes the CRC covers. Bytes 0-1, 2 and 6-7 are where the
      receiver reads them; the sequence number's place within 3-5 is assumed. */
  function HeaderBody(f: Format, kind: byte, seqNo: uint16, len: uint16): (h: seq<byte>)
    ensures |h| == 8
  {
    ToLe(f.magic, 2) + [kind, 0] + ToLe(seqNo, 2) + ToLe(len, 2)
  }

  function Encode(f: Format, kind: byte, seqNo: uint16, payload: seq<byte>): (s: seq<byte>)
    requires |payload| <= MAX_PAYLOAD
    ensures |s| == HEADER_LEN + |payload|
  {
    var h := HeaderBody(f, kind, seqNo, |payload|);
    h + ToLe(f.crc(h), 2) + payload
  }

  /** The payload length a header declares. */
  function Declared(s: seq<byte>): (n: uint16)
    requires |s| >= HEADER_LEN
  {
    Le16(s[6], s[7])
  }

  /** The three tests a position must pass to be taken for a frame. */
  predicate GoodHeader(f: Format, s: seq<byte>)
    requires |s| >= HEADER_LEN
  {
    && Le16(s[0], s[1]) == f.magic
    && f.crc(s[..8]) == Le16(s[8], s[9])
    && Declared(s) <= MAX_PAYLOAD
  }

  /** A header depends on its own ten bytes only. */
  lemma GoodHeaderPrefix(f: Format, s: seq<byte>, t: seq<byte>)
    requires |s| >= HEADER_LEN
    ensures GoodHeader(f, s + t) == GoodHeader(f, s)
    ensures Declared(s + t) == Declared(s)
  {
    assert (s + t)[..8] == s[..8];
  }

  /** Encoding writes a header the receiver accepts, declaring the right length. */
  lemma EncodeIsGood(f: Format, kind: byte, seqNo: uint16, payload: seq<byte>, tail: seq<byte>)
    requires |payload| <= MAX_PAYLOAD
    ensures var s := Encode(f, kind, seqNo, payload) + tail;
      && GoodHeader(f, s) && Declared(s) == |payload| && s[2] == kind
      && s[HEADER_LEN..HEADER_LEN + |payload|] == payload
      && s[HEADER_LEN + |payload|..] == tail
  {
    var h := HeaderBody(f, kind, seqNo, |payload|);
    var s := Encode(f, kind, seqNo, payload) + tail;
    ToLe16(f.magic);
    ToLe16(|payload|);
    ToLe16(f.crc(h));
    assert s == h + ToLe(f.crc(h), 2) + payload + tail;
    assert s[..8] == h;
    assert s[0] == h[0] == ToLe(f.magic, 2)[0] && s[1] == h[1] == ToLe(f.magic, 2)[1];
    assert s[6] == h[6] == ToLe(|payload|, 2)[0] && s[7] == h[7] == ToLe(|payload|, 2)[1];
    assert s[8] == ToLe(f.crc(h), 2)[0] && s[9] == ToLe(f.crc(h), 2)[1];
  }

  /** `v` shifted right by `i` bytes. */
  function Shifted(v: nat, i: nat): (r: nat)
    ensures r <= v
  {
    if i == 0 then v else Shifted(v, i - 1) / 256
  }

  lemma {:induction false} ShiftedFront(v: nat, i: nat)
    ensures Shifted(v, i + 1) == Shifted(v / 256, i)
  {
    if i > 0 {
      ShiftedFront(v, i - 1);
    }
  }

  lemma {:induction false} ByteOfLe(v: nat, n: nat, i: nat)
    requires i < n
    ensures ToLe(v, n)[i] == Shifted(v, i) % 256
    decreases i
  {
    if i > 0 {
      ByteOfLe(v / 256, n - 1, i - 1);
      ShiftedFront(v, i - 1);
    }
  }

  /** The shift-and-store loop both batchers use for their base timestamp. */
  method PutLe64(a: array<byte>, value: uint64)
    requires a.Length >= 8
    modifies a
    ensures a[..8] == ToLe(value, 8)
    ensures forall k :: 8 <= k < a.Length ==> a[k] == old(a[k])
  {
    for i := 0 to 8
      invariant forall k :: 0 <= k < i ==> a[k] == Shifted(value, k) % 256
      invariant forall k :: i <= k < a.Length ==> a[k] == old(a[k])
    {
      a[i] := Shifted(value, i) % 256;
    }
    forall k | 0 <= k < 8 ensures a[k] == ToLe(value, 8)[k] {
      ByteOfLe(value, 8, k);
    }
  }
}
