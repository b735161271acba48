/** What the BLE controller makes of the commands this firmware sends it, read from
    their parameter bytes (Bluetooth Core Specification, Vol 4 Part E, section 7). */
module Controller {
  import opened Wire

  datatype Opcode =
    | Reset | SetEventMask | LeSetEventMask | SetRandomAddress
    | SetAddrResEnable | ClearRl | AddDevToRl | SetPrivacyMode
    | ClearFal | AddDevToFal
    | SetScanParam | SetScanEnable | SetExtScanParam | SetExtScanEnable

  /** An entry of the resolving list. */
  datatype Identity = Identity(kind: byte, addr: seq<byte>, peerIrk: seq<byte>, localIrk: seq<byte>, devicePrivacy: bool)

  datatype PhyScan = PhyScan(scanType: byte, interval: uint16, window: uint16)

  datatype Scan =
    | Unset
    | Legacy(ownAddr: byte, policy: byte, scan: PhyScan)
    | Extended(ownAddr: byte, policy: byte, phys: byte, scans: seq<PhyScan>)

  datatype Ctl = Ctl(
    resolving: seq<Identity>,
    resolution: bool,
    accept: set<seq<byte>>,      // an address already listed is not listed twice
    scan: Scan,
    scanning: bool,
    keepRepeats: bool,           // duplicate filtering off
    eventMask: seq<byte>,
    leEventMask: seq<byte>,
    randomAddr: seq<byte>,
    syncs: nat)                  // periodic and BIG syncs

  /** After HCI Reset. The masks shown are the specification's defaults, which leave LE
      Meta events masked. */
  const AFTER_RESET := Ctl([], false, {}, Unset, false, false,
    [0xFF, 0xFF, 0xFF, 0xFF, 0xFF, 0x1F, 0x00, 0x00], [0x1F, 0, 0, 0, 0, 0, 0, 0], [0, 0, 0, 0, 0, 0], 0)

  function Bits(v: byte, n: nat): (k: nat)
    requires n <= 8
    ensures k <= n
  {
    if n == 0 then 0 else Bits(v, n - 1) + (if BitSet(v, n - 1) then 1 else 0)
  }

  /** Bit `i` of a byte. */
  predicate BitSet(v: byte, i: nat)
    requires i < 8
  {
    (v / [1, 2, 4, 8, 16, 32, 64, 128][i]) % 2 == 1
  }

  function ReadScan(s: seq<byte>): (p: PhyScan)
    requires |s| == 5
  {
    PhyScan(s[0], Le16(s[1], s[2]), Le16(s[3], s[4]))
  }

  function ReadScans(s: seq<byte>): (ps: seq<PhyScan>)
    requires |s| % 5 == 0
    ensures |ps| == |s| / 5
    decreases |s|
  {
    if s == [] then [] else [ReadScan(s[..5])] + ReadScans(s[5..])
  }

  function SetMode(es: seq<Identity>, kind: byte, addr: seq<byte>, device: bool): (r: seq<Identity>)
    ensures |r| == |es|
  {
    if es == [] then []
    else [if es[0].kind == kind && es[0].addr == addr then es[0].(devicePrivacy := device) else es[0]]
         + SetMode(es[1..], kind, addr, device)
  }

  /** Whether a command's parameters have the shape its section gives. */
  predicate Shaped(op: Opcode, p: seq<byte>) {
    match op
    case Reset => |p| == 0
    case SetEventMask => |p| == 8
    case LeSetEventMask => |p| == 8
    case SetRandomAddress => |p| == 6
    case SetAddrResEnable => |p| == 1
    case ClearRl => |p| == 0
    case AddDevToRl => |p| == 39
    case SetPrivacyMode => |p| == 8
    case ClearFal => |p| == 0
    case AddDevToFal => |p| == 7
    case SetScanParam => |p| == 7
    case SetScanEnable => |p| == 2
    case SetExtScanParam => |p| >= 3 && |p| == 3 + 5 * Bits(p[2], 8)
    case SetExtScanEnable => |p| == 6
  }

  /** The effect of a command the controller accepts. */
  function Exec(c: Ctl, op: Opcode, p: seq<byte>): (r: Ctl)
    requires Shaped(op, p)
  {
    match op
    case Reset => AFTER_RESET
    case SetEventMask => c.(eventMask := p)
    case LeSetEventMask => c.(leEventMask := p)
    case SetRandomAddress => c.(randomAddr := p)
    case SetAddrResEnable => c.(resolution := p[0] == 1)
    case ClearRl => c.(resolving := [])
    case AddDevToRl => c.(resolving := c.resolving + [Identity(p[0], p[1..7], p[7..23], p[23..39], false)])
    case SetPrivacyMode => c.(resolving := SetMode(c.resolving, p[0], p[1..7], p[7] == 1))
    case ClearFal => c.(accept := {})
    case AddDevToFal => c.(accept := c.accept + {p})
    case SetScanParam => c.(scan := Legacy(p[5], p[6], ReadScan(p[..5])))
    case SetScanEnable => c.(scanning := p[0] == 1, keepRepeats := p[1] == 0)
    case SetExtScanParam => c.(scan := Extended(p[0], p[1], p[2], ReadScans(p[3..])))
    case SetExtScanEnable => c.(scanning := p[0] == 1, keepRepeats := p[1] == 0)
  }

  // ---- what a scan means on air ----

  /** How each PHY is scanned. */
  function PhyScans(s: Scan): (ps: seq<PhyScan>) {
    match s
    case Unset => []
    case Legacy(_, _, p) => [p]
    case Extended(_, _, _, ps) => ps
  }

  /** No scan request is ever sent: every scan type is 0x00, passive (sections 7.8.10 and
      7.8.64; 0x01 is active). */
  predicate NeverRequests(s: Scan) {
    forall i :: 0 <= i < |PhyScans(s)| ==> PhyScans(s)[i].scanType == 0x00
  }

  /** The scan's own address is the one set as random: own address type 0x01. These parts
      have no public one. */
  predicate UsesRandom(s: Scan) {
    match s
    case Unset => false
    case Legacy(own, _, _) => own == 0x01
    case Extended(own, _, _, _) => own == 0x01
  }

  /** A static random address: its two top bits set. */
  predicate StaticRandom(addr: seq<byte>) {
    |addr| == 6 && addr[5] >= 192
  }

  /** Whether LE event `sub` is sent to the host: LE Meta is bit 61 of the event mask (section
      7.3.1) and each LE event a bit of the LE mask, counted from 1 (section 7.8.1). */
  predicate Sends(c: Ctl, sub: nat)
    requires 1 <= sub <= 64
  {
    && |c.eventMask| == 8 && BitSet(c.eventMask[7], 5)
    && |c.leEventMask| == 8 && BitSet(c.leEventMask[(sub - 1) / 8], (sub - 1) % 8)
  }

  /** Whether advertisements from `addr` are reported: from anyone under policy 0x00, from
      the accept list under 0x01. */
  predicate Reports(c: Ctl, addr: seq<byte>) {
    match c.scan
    case Unset => false
    case Legacy(_, policy, _) => policy == 0x00 || (policy == 0x01 && addr in c.accept)
    case Extended(_, policy, _, _) => policy == 0x00 || (policy == 0x01 && addr in c.accept)
  }
}
