/** START and STOP of the BLE radio against a controller that may refuse any command. */
module ScanStart {
  import opened Wire
  import opened Controller

  const EIO := 5
  const EINVAL := 22
  const ENODEV := 19
  const MAX_FILTER := 8
  const FILTER_ENTRY := 7
  const KEY_ENTRY := 23
  const MAX_KEYS := 8            // CONFIG_BT_CTLR_RL_SIZE
  const DEFAULT_INTERVAL_MS := 60
  const OWN_ADDR_RANDOM: byte := 1
  const SCAN_TYPE_PASSIVE: byte := 0
  const PHYS_LEGACY: byte := 0

  type Key = s: seq<byte> | |s| == KEY_ENTRY witness seq(KEY_ENTRY, _ => 0)
  type Address = s: seq<byte> | |s| == FILTER_ENTRY witness seq(FILTER_ENTRY, _ => 0)

  // ---- what START should leave in the controller ----

  /** The resolving list for a list of keys: each entry in device privacy mode. */
  function Listed(keys: seq<Key>): (es: seq<Identity>)
    ensures |es| == |keys|
  {
    if keys == [] then []
    else Listed(keys[..|keys| - 1]) + [Entry(keys[|keys| - 1], true)]
  }

  function Entry(k: Key, device: bool): (e: Identity) {
    Identity(k[0], k[1..7], k[7..23], Zeros(16), device)
  }

  function Addresses(filter: seq<Address>): (s: set<seq<byte>>) {
    set i | 0 <= i < |filter| :: filter[i]
  }

  /** UNITS_PER_MS, its (uint16_t) cast included. */
  function Units(ms: uint16): (u: uint16) {
    (ms * 1000 / 625) % 0x1_0000
  }

  function Interval(ms: uint16): (r: uint16)
    ensures r >= 1
  {
    if ms == 0 then DEFAULT_INTERVAL_MS else ms
  }

  function Window(intervalMs: uint16, windowMs: uint16): (r: uint16)
    ensures 1 <= r <= Interval(intervalMs)
  {
    if windowMs == 0 || windowMs > Interval(intervalMs) then Interval(intervalMs) else windowMs
  }

  function Passive(intervalMs: uint16, windowMs: uint16): (p: PhyScan) {
    PhyScan(SCAN_TYPE_PASSIVE, Units(Interval(intervalMs)), Units(Window(intervalMs, windowMs)))
  }

  function Policy(filter: seq<Address>): (p: byte) {
    if filter == [] then 0 else 1
  }

  /** The lists: the keys in order in device privacy mode, resolution on exactly when
      there are keys, the accept list exactly the filter. */
  ghost predicate ListsLoaded(c: Ctl, keys: seq<Key>, filter: seq<Address>) {
    && c.resolving == Listed(keys)
    && (c.resolution <==> keys != [])
    && c.accept == Addresses(filter)
  }

  /** Events reach the host: LE Meta (bit 61) and every LE event unmasked, and the address
      the controller insists on is a static random one. */
  ghost predicate Unmasked(c: Ctl) {
    && c.eventMask == [0xFF, 0xFF, 0xFF, 0xFF, 0xFF, 0xFF, 0xFF, 0x3F]
    && c.leEventMask == seq(8, _ => 0xFF)
    && |c.randomAddr| == 6 && c.randomAddr[5] >= 0xC0
  }

  ghost predicate Scans(c: Ctl, filter: seq<Address>, intervalMs: uint16, windowMs: uint16, phys: byte) {
    && c.scanning && c.keepRepeats
    && if phys == PHYS_LEGACY
       then c.scan == Legacy(OWN_ADDR_RANDOM, Policy(filter), Passive(intervalMs, windowMs))
       else c.scan.Extended? && c.scan.ownAddr == OWN_ADDR_RANDOM && c.scan.policy == Policy(filter)
            && c.scan.phys == phys && |c.scan.scans| == Bits(phys, 8)
            && forall i :: 0 <= i < |c.scan.scans| ==> c.scan.scans[i] == Passive(intervalMs, windowMs)
  }

  /** A scan that sends no request and needs no public address. */
  predicate Discreet(s: Scan) {
    NeverRequests(s) && UsesRandom(s)
  }

  /** What the controller makes of a time up to 40959 ms, at 625 us a unit, is that time less
      part of a unit. */
  lemma UnitsAreMs(ms: uint16)
    requires ms <= 40959
    ensures ms * 1000 - 625 < Units(ms) * 625 <= ms * 1000
  {
    assert ms * 1000 / 625 <= 65534;
  }

  /** So a scan is with the legacy commands exactly for no PHY, and times every one of its
      PHYs by the interval asked for, 60 ms for none, and by a window no longer. */
  lemma ScansInTime(c: Ctl, filter: seq<Address>, intervalMs: uint16, windowMs: uint16, phys: byte)
    requires Scans(c, filter, intervalMs, windowMs, phys) && intervalMs <= 40959
    ensures c.scanning && c.keepRepeats && (c.scan.Legacy? <==> phys == 0)
    ensures var i := if intervalMs == 0 then 60 else intervalMs;
      var w := if windowMs == 0 || windowMs > i then i else windowMs;
      forall p :: p in PhyScans(c.scan) ==>
        i * 1000 - 625 < p.interval * 625 <= i * 1000 && w * 1000 - 625 < p.window * 625 <= w * 1000
  {
    UnitsAreMs(Interval(intervalMs));
    UnitsAreMs(Window(intervalMs, windowMs));
  }

  /** Every LE event reaches the host then; after a reset alone none does. */
  lemma EventsComeThrough(c: Ctl, sub: nat)
    requires Unmasked(c) && 1 <= sub <= 64
    ensures Sends(c, sub) && !Sends(AFTER_RESET, sub)
  {
    assert (sub - 1) / 8 < 8;
    assert BitSet(0xFF, (sub - 1) % 8);
  }

  /** A scan window within its interval, in the controller's units, for every window
      START can be asked for: exactly when the interval is at most 40959 ms. Above that
      the sixteen-bit cast wraps the interval first. */
  lemma WindowsFitExactly(intervalMs: uint16)
    requires intervalMs >= 1
    ensures (forall w: uint16 :: Units(Window(intervalMs, w)) <= Units(intervalMs)) <==> intervalMs <= 40959
  {
    if intervalMs <= 40959 {
      forall w: uint16 ensures Units(Window(intervalMs, w)) <= Units(intervalMs) {
        UnitsMonotone(Window(intervalMs, w), intervalMs);
      }
    } else {
      assert Units(40959) == 65534;
      assert Units(Window(intervalMs, 40959)) == 65534;
      WrappedUnits(intervalMs);
    }
  }

  lemma UnitsMonotone(a: uint16, b: uint16)
    requires a <= b <= 40959
    ensures Units(a) <= Units(b)
  {
    assert a * 1000 <= b * 1000 <= 40959000;
    assert b * 1000 / 625 <= 65534;
  }

  lemma WrappedUnits(ms: uint16)
    requires ms >= 40960
    ensures Units(ms) < 65534
  {
    assert 65536 <= ms * 1000 / 625 <= 104856;
  }

  // ---- how the lists are built ----

  lemma {:induction false} SetModeKeeps(es: seq<Identity>, kind: byte, addr: seq<byte>)
    requires forall e :: e in es ==> e.devicePrivacy
    ensures SetMode(es, kind, addr, true) == es
  {
    if es != [] {
      SetModeKeeps(es[1..], kind, addr);
      assert es == [es[0]] + es[1..];
    }
  }

  lemma {:induction false} SetModeAppend(a: seq<Identity>, b: seq<Identity>, kind: byte, addr: seq<byte>, d: bool)
    ensures SetMode(a + b, kind, addr, d) == SetMode(a, kind, addr, d) + SetMode(b, kind, addr, d)
    decreases |a|
  {
    if a == [] {
      assert a + b == b;
    } else {
      assert (a + b)[1..] == a[1..] + b;
      SetModeAppend(a[1..], b, kind, addr, d);
    }
  }

  lemma {:induction false} ListedAreDevice(keys: seq<Key>)
    ensures forall e :: e in Listed(keys) ==> e.devicePrivacy
    decreases |keys|
  {
    if keys != [] {
      ListedAreDevice(keys[..|keys| - 1]);
    }
  }

  /** Adding a key and then giving its identity device privacy mode extends the list by
      that key, even when the same identity is listed already. */
  lemma ListedSnoc(keys: seq<Key>, k: Key)
    ensures SetMode(Listed(keys) + [Entry(k, false)], k[0], k[1..7], true) == Listed(keys + [k])
  {
    var one := [Entry(k, false)];
    SetModeAppend(Listed(keys), one, k[0], k[1..7], true);
    ListedAreDevice(keys);
    SetModeKeeps(Listed(keys), k[0], k[1..7]);
    assert one[1..] == [] && SetMode(one, k[0], k[1..7], true) == [Entry(k, true)];
    assert (keys + [k])[..|keys|] == keys;
  }

  /** The per-PHY blocks of LE Set Extended Scan Parameters, for the bits below `n`. */
  function Blocks(block: seq<byte>, phys: byte, n: nat): (s: seq<byte>)
    requires n <= 8 && |block| == 5
    ensures |s| == 5 * Bits(phys, n)
  {
    if n == 0 then [] else Blocks(block, phys, n - 1) + (if BitSet(phys, n - 1) then block else [])
  }

  lemma {:induction false} ReadScansAppend(a: seq<byte>, b: seq<byte>)
    requires |a| % 5 == 0 && |b| % 5 == 0
    ensures ReadScans(a + b) == ReadScans(a) + ReadScans(b)
    decreases |a|
  {
    if a == [] {
      assert a + b == b;
    } else {
      assert (a + b)[5..] == a[5..] + b && (a + b)[..5] == a[..5];
      ReadScansAppend(a[5..], b);
    }
  }

  lemma {:induction false} ReadBlocks(block: seq<byte>, phys: byte, n: nat)
    requires n <= 8 && |block| == 5
    ensures forall i :: 0 <= i < |ReadScans(Blocks(block, phys, n))| ==>
      ReadScans(Blocks(block, phys, n))[i] == ReadScan(block)
    decreases n
  {
    if n > 0 {
      ReadBlocks(block, phys, n - 1);
      if BitSet(phys, n - 1) {
        ReadScansAppend(Blocks(block, phys, n - 1), block);
        assert block[5..] == [] && block[..5] == block;
        assert ReadScans(block) == [ReadScan(block)];
      } else {
        assert Blocks(block, phys, n) == Blocks(block, phys, n - 1);
      }
    }
  }

  /** What the controller makes of the extended parameters. */
  lemma ExtendedIsRead(c: Ctl, policy: byte, interval: uint16, window: uint16, phys: byte, params: seq<byte>)
    requires params == [OWN_ADDR_RANDOM, policy, phys] + Blocks(Block(interval, window), phys, 8)
    ensures Shaped(SetExtScanParam, params)
    ensures var r := Exec(c, SetExtScanParam, params);
      && r == c.(scan := Extended(OWN_ADDR_RANDOM, policy, phys, r.scan.scans)) && |r.scan.scans| == Bits(phys, 8)
      && (forall i :: 0 <= i < |r.scan.scans| ==> r.scan.scans[i] == PhyScan(SCAN_TYPE_PASSIVE, interval, window))
      && Discreet(r.scan)
  {
    assert params[3..] == Blocks(Block(interval, window), phys, 8);
    ReadBlocks(Block(interval, window), phys, 8);
  }

  // ---- the host frames that fill the tables ----

  /** The length of `n` entries. */
  function Length(n: nat, size: nat): (len: nat) {
    if n == 0 then 0 else Length(n - 1, size) + size
  }

  lemma {:induction false} LengthIs(n: nat, size: nat)
    ensures Length(n, size) == n * size
  {
    if n > 0 {
      LengthIs(n - 1, size);
      assert n * size == (n - 1) * size + size;
    }
  }

  /** `payload` cut into entries of `size` bytes. */
  function Entries(payload: seq<byte>, size: nat, n: nat): (es: seq<seq<byte>>)
    requires Length(n, size) <= |payload|
    ensures |es| == n && forall i :: 0 <= i < n ==> |es[i]| == size
  {
    if n == 0 then []
    else
      var m := Length(n - 1, size);
      Entries(payload, size, n - 1) + [payload[m..m + size]]
  }

  /** How many entries of a filter frame are taken: whole ones, and at most eight. */
  function FilterEntries(payload: seq<byte>): (n: nat)
    ensures Length(n, FILTER_ENTRY) == n * FILTER_ENTRY <= |payload| && n <= MAX_FILTER
    ensures n == MAX_FILTER || |payload| < (n + 1) * FILTER_ENTRY
  {
    var n := |payload| / FILTER_ENTRY;
    var taken := if n < MAX_FILTER then n else MAX_FILTER;
    LengthIs(taken, FILTER_ENTRY);
    taken
  }

  function Flat(es: seq<seq<byte>>): (s: seq<byte>) {
    if es == [] then [] else Flat(es[..|es| - 1]) + es[|es| - 1]
  }

  lemma FlatSnoc(es: seq<seq<byte>>, last: seq<byte>)
    ensures Flat(es + [last]) == Flat(es) + last
  {
    assert (es + [last])[..|es|] == es;
  }

  lemma CutSnoc(payload: seq<byte>, m: nat, size: nat)
    requires m + size <= |payload|
    ensures payload[..m + size] == payload[..m] + payload[m..m + size]
  {
  }

  /** The entries one after the other are the bytes they were cut from. */
  lemma {:induction false} FlatEntries(payload: seq<byte>, size: nat, n: nat)
    requires Length(n, size) <= |payload|
    ensures Flat(Entries(payload, size, n)) == payload[..Length(n, size)]
  {
    if n > 0 {
      var m := Length(n - 1, size);
      FlatEntries(payload, size, n - 1);
      FlatSnoc(Entries(payload, size, n - 1), payload[m..m + size]);
      CutSnoc(payload, m, size);
    }
  }

  lemma {:induction false} FlatInjective(a: seq<seq<byte>>, b: seq<seq<byte>>, size: nat)
    requires |a| == |b| && Flat(a) == Flat(b)
    requires (forall e :: e in a ==> |e| == size) && forall e :: e in b ==> |e| == size
    ensures a == b
  {
    if a != [] {
      var n := |a| - 1;
      var x, y := Flat(a[..n]), Flat(b[..n]);
      assert Flat(a) == x + a[n] && Flat(b) == y + b[n];
      assert a[n] in a && b[n] in b;
      assert |x| == |y|;
      assert x == Flat(a)[..|x|] && y == Flat(b)[..|x|] && a[n] == Flat(a)[|x|..] && b[n] == Flat(b)[|x|..];
      FlatInjective(a[..n], b[..n], size);
      assert a == a[..n] + [a[n]] && b == b[..n] + [b[n]];
    }
  }

  lemma {:induction false} FlatLength(es: seq<seq<byte>>, size: nat)
    requires forall e :: e in es ==> |e| == size
    ensures |Flat(es)| == Length(|es|, size)
  {
    if es != [] {
      var n := |es| - 1;
      FlatLength(es[..n], size);
      assert |es[n]| == size;
    }
  }

  /** Entries of one size are got back from their bytes. */
  lemma CutBack(es: seq<seq<byte>>, size: nat)
    requires size > 0 && forall e :: e in es ==> |e| == size
    ensures |Flat(es)| == Length(|es|, size) && Entries(Flat(es), size, |es|) == es
  {
    FlatLength(es, size);
    FlatEntries(Flat(es), size, |es|);
    assert Flat(es)[..|Flat(es)|] == Flat(es);
    FlatInjective(Entries(Flat(es), size, |es|), es, size);
  }

  function KeysOf(bytes: seq<byte>): (keys: seq<Key>) {
    LengthIs(|bytes| / KEY_ENTRY, KEY_ENTRY);
    Entries(bytes, KEY_ENTRY, |bytes| / KEY_ENTRY)
  }

  function FilterOf(bytes: seq<byte>): (filter: seq<Address>) {
    LengthIs(|bytes| / FILTER_ENTRY, FILTER_ENTRY);
    Entries(bytes, FILTER_ENTRY, |bytes| / FILTER_ENTRY)
  }

  lemma KeysFromBytes(keys: seq<Key>)
    ensures KeysOf(Flat(keys)) == keys
  {
    CutBack(keys, KEY_ENTRY);
    LengthIs(|keys|, KEY_ENTRY);
    assert |Flat(keys)| / KEY_ENTRY == |keys|;
  }

  lemma FilterFromBytes(filter: seq<Address>)
    ensures FilterOf(Flat(filter)) == filter
  {
    CutBack(filter, FILTER_ENTRY);
    LengthIs(|filter|, FILTER_ENTRY);
    assert |Flat(filter)| / FILTER_ENTRY == |filter|;
  }

  /** The controller holds the keys and addresses that these bytes are, hears every event
      and scans as asked. */
  ghost predicate Loaded(c: Ctl, keys: seq<byte>, filter: seq<byte>, intervalMs: uint16, windowMs: uint16, phys: byte) {
    && ListsLoaded(c, KeysOf(keys), FilterOf(filter)) && Unmasked(c)
    && Scans(c, FilterOf(filter), intervalMs, windowMs, phys) && Discreet(c.scan)
  }

  /** A keys frame that is taken: whole entries, at most eight, each a known address type. */
  predicate KeysWellFormed(payload: seq<byte>) {
    && |payload| % KEY_ENTRY == 0 && |payload| / KEY_ENTRY <= MAX_KEYS
    && forall i :: 0 <= i < |payload| && i % KEY_ENTRY == 0 ==> payload[i] <= 1
  }

  // ---- what goes on between two commands ----

  datatype Cmd = Cmd(op: Opcode, params: seq<byte>)

  /** The controller, and whether a sync worker has found `running` set and not yet sent
      its Create Sync: it may be waiting for the command lock. */
  datatype Air = Air(ctl: Ctl, checked: bool)

  /** Until the control thread's next command: syncs are lost, and made by workers, which
      set out only while `running`. */
  predicate Meanwhile(running: bool, a: Air, b: Air) {
    && b.ctl == a.ctl.(syncs := b.ctl.syncs)
    && (!running && !a.checked ==> !b.checked && b.ctl.syncs <= a.ctl.syncs)
    && (!running && b.checked ==> b.ctl.syncs <= a.ctl.syncs)
    && (!running ==> b.ctl.syncs <= a.ctl.syncs + 1)
  }

  /** A command the controller accepts, and what happens until the next. */
  ghost predicate Accepted(running: bool, a: Air, c: Cmd, b: Air) {
    Shaped(c.op, c.params) && Meanwhile(running, a.(ctl := Exec(a.ctl, c.op, c.params)), b)
  }

  /** The commands in turn, all accepted: airs[i] is how it stands before the i-th. */
  ghost predicate Plays(running: bool, cmds: seq<Cmd>, airs: seq<Air>) {
    |airs| == |cmds| + 1 && forall i :: 0 <= i < |cmds| ==> Accepted(running, airs[i], cmds[i], airs[i + 1])
  }

  /** A RESET first and no other: the shape of START's commands and of STOP's. */
  ghost predicate ResetLed(cmds: seq<Cmd>) {
    cmds != [] && cmds[0].op == Reset && forall i :: 1 <= i < |cmds| ==> cmds[i].op != Reset
  }

  lemma NoOtherEndsSyncs(c: Ctl, op: Opcode, p: seq<byte>)
    requires Shaped(op, p)
    ensures Exec(c, op, p).syncs == if op == Reset then 0 else c.syncs
  {
  }

  lemma NextKeeps(running: bool, a: Air, c: Cmd, ran: bool, b: Air)
    requires Shaped(c.op, c.params) && c.op != Reset
    requires if ran then Accepted(running, a, c, b) else Meanwhile(running, a, b)
    ensures ran ==> b.ctl == Exec(a.ctl, c.op, c.params).(syncs := b.ctl.syncs)
    ensures !running && !a.checked && a.ctl.syncs == 0 ==> !b.checked && b.ctl.syncs == 0
  {
    NoOtherEndsSyncs(a.ctl, c.op, c.params);
  }

  /** With no scan running and no worker on its way, no sync outlives the RESET. */
  lemma {:induction false} QuietHoldsNone(cmds: seq<Cmd>, airs: seq<Air>, n: nat)
    requires ResetLed(cmds) && Plays(false, cmds, airs) && !airs[0].checked && 1 <= n <= |cmds|
    ensures airs[n].ctl.syncs == 0 && !airs[n].checked
    decreases n
  {
    if n > 1 {
      QuietHoldsNone(cmds, airs, n - 1);
    }
    assert Accepted(false, airs[n - 1], cmds[n - 1], airs[n]);
    NoOtherEndsSyncs(airs[n - 1].ctl, cmds[n - 1].op, cmds[n - 1].params);
  }

  /** The run in which a worker's Create Sync comes right behind the RESET. */
  function Crossed(cmds: seq<Cmd>, ctl: Ctl, checked: bool): (airs: seq<Air>)
    requires ResetLed(cmds) && forall c :: c in cmds ==> Shaped(c.op, c.params)
    ensures |airs| == |cmds| + 1
    decreases |cmds|
  {
    if |cmds| == 1 then [Air(ctl, checked), Air(Exec(ctl, cmds[0].op, cmds[0].params).(syncs := 1), false)]
    else
      var airs := Crossed(cmds[..|cmds| - 1], ctl, checked);
      var last, c := airs[|airs| - 1], cmds[|cmds| - 1];
      airs + [last.(ctl := Exec(last.ctl, c.op, c.params))]
  }

  lemma PlaysOn(running: bool, cmds: seq<Cmd>, airs: seq<Air>)
    requires |cmds| > 1 && Plays(running, cmds[..|cmds| - 1], airs)
    requires var c := cmds[|cmds| - 1]; Shaped(c.op, c.params)
    ensures var last, c := airs[|cmds| - 1], cmds[|cmds| - 1];
      Plays(running, cmds, airs + [last.(ctl := Exec(last.ctl, c.op, c.params))])
  {
    var n := |cmds| - 1;
    var front, last, c := cmds[..n], airs[n], cmds[n];
    var all := airs + [last.(ctl := Exec(last.ctl, c.op, c.params))];
    forall i | 0 <= i < |cmds| ensures Accepted(running, all[i], cmds[i], all[i + 1]) {
      if i < n {
        assert Accepted(running, airs[i], front[i], airs[i + 1]);
      }
    }
  }

  lemma {:induction false} CrossedPlays(running: bool, cmds: seq<Cmd>, ctl: Ctl, checked: bool)
    requires ResetLed(cmds) && (forall c :: c in cmds ==> Shaped(c.op, c.params)) && (running || checked)
    ensures var airs := Crossed(cmds, ctl, checked);
      Plays(running, cmds, airs) && airs[0] == Air(ctl, checked) && airs[|cmds|].ctl.syncs == 1
    decreases |cmds|
  {
    if |cmds| > 1 {
      var front, c := cmds[..|cmds| - 1], cmds[|cmds| - 1];
      var airs := Crossed(front, ctl, checked);
      CrossedPlays(running, front, ctl, checked);
      PlaysOn(running, cmds, airs);
      NoOtherEndsSyncs(airs[|front|].ctl, c.op, c.params);
    } else {
      NoOtherEndsSyncs(ctl, cmds[0].op, cmds[0].params);
    }
  }

  /** The exact edge: commands led by a RESET, all accepted, can leave a sync in the
      controller if and only if a scan runs meanwhile or a worker was already on its way. */
  lemma SyncsAtEndExactly(running: bool, cmds: seq<Cmd>, ctl: Ctl, checked: bool)
    requires ResetLed(cmds) && forall c :: c in cmds ==> Shaped(c.op, c.params)
    ensures running || checked <==>
      exists airs: seq<Air> :: Plays(running, cmds, airs) && airs[0] == Air(ctl, checked) && airs[|cmds|].ctl.syncs > 0
  {
    if running || checked {
      CrossedPlays(running, cmds, ctl, checked);
    } else {
      forall airs: seq<Air> | Plays(running, cmds, airs) && airs[0] == Air(ctl, checked) ensures airs[|cmds|].ctl.syncs == 0 {
        QuietHoldsNone(cmds, airs, |cmds|);
      }
    }
  }

  // ---- answers that come after their command was given up on ----

  /** What a command was answered, or will be: answers keep the order of the commands. */
  datatype Late = Late(op: Opcode, ok: bool)

  /** `rest` is what is left of `queue` once some of it is read. */
  predicate Remains(rest: seq<Late>, queue: seq<Late>) {
    |rest| <= |queue| && rest == queue[|queue| - |rest|..]
  }

  /** The status the first answer under `op` has. */
  predicate Verdict(queue: seq<Late>, op: Opcode) {
    queue != [] && if queue[0].op == op then queue[0].ok else Verdict(queue[1..], op)
  }

  /** What is queued behind that answer. */
  function Behind(queue: seq<Late>, op: Opcode): (rest: seq<Late>)
    ensures forall a :: a in rest ==> a in queue
  {
    if queue == [] then [] else if queue[0].op == op then queue[1..] else Behind(queue[1..], op)
  }

  /** hci_command() returns 0: the first answer read under its opcode, an older command's
      if there is one ahead of its own, is a success. */
  predicate Completes(stale: seq<Late>, own: Late, rest: seq<Late>) {
    Verdict(stale + [own], own.op) && Remains(rest, Behind(stale + [own], own.op))
  }

  /** How a call ends: with 0 only for a command that was sent; a RESET is not refused. */
  predicate Ends(stale: seq<Late>, own: Late, sent: bool, err: int, rest: seq<Late>) {
    if err == 0 then sent && Completes(stale, own, rest) && (own.op == Reset ==> own.ok)
    else Remains(rest, if sent then stale + [own] else stale)
  }

  /** Without an older success of its opcode it was its own answer, and nothing is left. */
  lemma {:induction false} OwnAnswer(stale: seq<Late>, own: Late, rest: seq<Late>)
    requires Completes(stale, own, rest) && Late(own.op, true) !in stale
    ensures own.ok && rest == []
  {
    if stale != [] {
      assert (stale + [own])[1..] == stale[1..] + [own];
      OwnAnswer(stale[1..], own, rest);
    }
  }

  lemma {:induction false} BehindReset(stale: seq<Late>)
    ensures forall a :: a in Behind(stale + [Late(Reset, true)], Reset) ==> a.op == Reset || a in Behind(stale, Reset)
  {
    if stale != [] {
      assert (stale + [Late(Reset, true)])[1..] == stale[1..] + [Late(Reset, true)];
      BehindReset(stale[1..]);
    }
  }

  /** No success of an older SET_EVENT_MASK is queued behind an older RESET's answer. It
      takes two commands given up on with neither answer read to make it so. */
  predicate Calm(stale: seq<Late>) {
    Late(SetEventMask, true) !in Behind(stale, Reset)
  }

  lemma {:induction false} ResetVerdict(stale: seq<Late>)
    requires forall a :: a in stale && a.op == Reset ==> a.ok
    ensures Verdict(stale + [Late(Reset, true)], Reset)
    ensures Late(SetEventMask, true) in Behind(stale, Reset) ==>
      Late(SetEventMask, true) in Behind(stale + [Late(Reset, true)], Reset)
  {
    if stale != [] {
      assert (stale + [Late(Reset, true)])[1..] == stale[1..] + [Late(Reset, true)];
      ResetVerdict(stale[1..]);
    }
  }

  /** The exact edge: the SET_EVENT_MASK behind START's RESET can return 0 and have been
      refused if and only if the queue is not calm. */
  lemma CalmExactly(stale: seq<Late>)
    requires forall a :: a in stale && a.op == Reset ==> a.ok
    ensures Calm(stale) <==>
      forall between: seq<Late>, own: Late, rest: seq<Late> ::
        Completes(stale, Late(Reset, true), between) && own.op == SetEventMask && Completes(between, own, rest) ==> own.ok
  {
    if Calm(stale) {
      BehindReset(stale);
      forall between: seq<Late>, own: Late, rest: seq<Late> |
        Completes(stale, Late(Reset, true), between) && own.op == SetEventMask && Completes(between, own, rest)
        ensures own.ok
      {
        OwnAnswer(between, own, rest);
      }
    } else {
      ResetVerdict(stale);
      var queue := Behind(stale + [Late(Reset, true)], Reset);
      var i :| 0 <= i < |queue| && queue[i] == Late(SetEventMask, true);
      var own := Late(SetEventMask, false);
      assert Completes(stale, Late(Reset, true), queue[i..]);
      assert (queue[i..] + [own])[0] == Late(SetEventMask, true);
      assert Completes(queue[i..], own, Behind(queue[i..] + [own], SetEventMask));
    }
  }

  // ---- the radio ----

  /** The parts of radio_ble.c that START, STOP and the tables use, and the controller at
      the other end. */
  class Radio {
    var ctl: Ctl
    var ready: bool
    var running: bool
    var keys: seq<Key>
    var filter: seq<Address>
    var syncCount: nat
    var bigSynced: bool
    var bigRetryAt: int
    var bisCount: nat
    var checked: bool        // a worker is on its way; see Air
    var stale: seq<Late>     // answers to commands given up on, still to be read

    function Now(): (a: Air)
      reads this
    {
      Air(ctl, checked)
    }

    /** No scan, no worker on its way and no sync: so it stays until a scan starts. */
    ghost predicate Still()
      reads this
    {
      !running && !checked && ctl.syncs == 0
    }

    constructor (ready: bool)
      ensures !running && keys == [] && filter == [] && ctl == AFTER_RESET && this.ready == ready
      ensures !checked && stale == []
    {
      ctl, this.ready, running, keys, filter := AFTER_RESET, ready, false, [], [];
      syncCount, bigSynced, bigRetryAt, bisCount := 0, false, 0, 0;
      checked, stale := false, [];
    }

    /** send_command against a controller that may refuse any command but RESET. It may
        fail to be sent, or be given up on; the forwarding thread reads on meanwhile. Its
        effect is booked here: commands run in the order they are sent. */
    method SendCommand(op: Opcode, params: seq<byte>) returns (err: int, ghost ran: bool)
      requires Shaped(op, params)
      modifies this`ctl, this`checked, this`stale
      ensures err == 0 ==> Completes(old(stale), Late(op, ran), stale) && (op == Reset ==> ran)
      ensures err != 0 ==> Remains(stale, old(stale)) || Remains(stale, old(stale) + [Late(op, ran)])
      ensures ran ==> Accepted(running, old(Now()), Cmd(op, params), Now())
      ensures !ran ==> Meanwhile(running, old(Now()), Now())
    {
      var sent: bool, taken: bool :| taken ==> sent;
      assert Ends(stale, Late(op, taken), sent, -EIO, if sent then stale + [Late(op, taken)] else stale);
      var answer: int, rest: seq<Late> :| Ends(stale, Late(op, taken), sent, answer, rest);
      assert Ends(stale, Late(op, taken), sent, answer, rest);
      if taken {
        ctl := Exec(ctl, op, params);
      }
      var before := Now();
      assert Meanwhile(running, before, before);
      var after: Air :| Meanwhile(running, before, after);
      ctl, checked, stale := after.ctl, after.checked, rest;
      err, ran := answer, taken;
    }

    /** The RESET every START and STOP begins with. */
    method SendReset() returns (err: int)
      modifies this`ctl, this`checked, this`stale
      ensures err == 0 ==> Completes(old(stale), Late(Reset, true), stale) && ctl == AFTER_RESET.(syncs := ctl.syncs)
      ensures err == 0 && !running && !old(checked) ==> Still()
      ensures ctl.scan == old(ctl.scan) || ctl.scan == Unset
    {
      ghost var ran;
      err, ran := SendCommand(Reset, []);
    }

    /** Any other. */
    method SendNext(op: Opcode, params: seq<byte>) returns (err: int)
      requires Shaped(op, params) && op != Reset
      modifies this`ctl, this`checked, this`stale
      ensures err == 0 && Late(op, true) !in old(stale) ==>
        stale == [] && ctl == Exec(old(ctl), op, params).(syncs := ctl.syncs)
      ensures old(Still()) ==> Still()
      ensures ctl.scan == old(ctl.scan) || ctl.scan == Exec(old(ctl), op, params).scan
    {
      ghost var was, air, ran := stale, Now(), false;
      err, ran := SendCommand(op, params);
      NextKeeps(running, air, Cmd(op, params), ran, Now());
      if err == 0 && Late(op, true) !in was {
        OwnAnswer(was, Late(op, ran), stale);
      }
    }

    method SetFilter(payload: seq<byte>)
      modifies this`filter
      ensures filter == Entries(payload, FILTER_ENTRY, FilterEntries(payload))
    {
      filter := [];
      while (|filter| + 1) * FILTER_ENTRY <= |payload| && |filter| < MAX_FILTER
        invariant |filter| <= MAX_FILTER && Length(|filter|, FILTER_ENTRY) == |filter| * FILTER_ENTRY <= |payload|
        invariant filter == Entries(payload, FILTER_ENTRY, |filter|)
        decreases MAX_FILTER - |filter|
      {
        var at := |filter| * FILTER_ENTRY;
        filter := filter + [payload[at..at + FILTER_ENTRY]];
      }
    }

    /** Whether every entry has a known address type. */
    method KnownTypes(payload: seq<byte>) returns (known: bool)
      requires |payload| % KEY_ENTRY == 0
      ensures known <==> forall i :: 0 <= i < |payload| && i % KEY_ENTRY == 0 ==> payload[i] <= 1
    {
      var i := 0;
      while i < |payload|
        invariant i % KEY_ENTRY == 0 && i <= |payload|
        invariant forall j :: 0 <= j < i && j % KEY_ENTRY == 0 ==> payload[j] <= 1
      {
        if payload[i] > 1 {
          return false;
        }
        assert forall j :: i < j < i + KEY_ENTRY ==> j % KEY_ENTRY != 0;
        i := i + KEY_ENTRY;
      }
      known := true;
    }

    /** Refused whole rather than truncated. */
    method SetKeys(payload: seq<byte>) returns (err: int)
      modifies this`keys
      ensures err == 0 <==> KeysWellFormed(payload)
      ensures err == 0 ==> Length(|keys|, KEY_ENTRY) == |keys| * KEY_ENTRY == |payload| && keys == Entries(payload, KEY_ENTRY, |keys|)
      ensures err != 0 ==> err == -EINVAL && keys == old(keys)
    {
      if |payload| % KEY_ENTRY != 0 || |payload| / KEY_ENTRY > MAX_KEYS {
        return -EINVAL;
      }
      var known := KnownTypes(payload);
      if !known {
        return -EINVAL;
      }
      keys := [];
      while |keys| * KEY_ENTRY < |payload|
        invariant Length(|keys|, KEY_ENTRY) == |keys| * KEY_ENTRY <= |payload|
        invariant keys == Entries(payload, KEY_ENTRY, |keys|)
        decreases |payload| - |keys| * KEY_ENTRY
      {
        var at := |keys| * KEY_ENTRY;
        keys := keys + [payload[at..at + KEY_ENTRY]];
      }
      err := 0;
    }

    /** One key: added to the list, then given device privacy mode. */
    method ApplyKey(k: Key) returns (err: int)
      modifies this`ctl, this`checked, this`stale
      ensures err == 0 && old(stale) == [] ==>
        && stale == []
        && ctl == old(ctl).(resolving := SetMode(old(ctl).resolving + [Entry(k, false)], k[0], k[1..7], true),
                            syncs := ctl.syncs)
      ensures old(Still()) ==> Still()
      ensures ctl.scan == old(ctl.scan)
    {
      var entry := k + Zeros(16);
      assert entry[1..7] == k[1..7] && entry[7..23] == k[7..23] && entry[23..39] == Zeros(16);
      err := SendNext(AddDevToRl, entry);
      if err != 0 { return; }
      var mode := k[..7] + [1];
      assert mode[1..7] == k[1..7];
      err := SendNext(SetPrivacyMode, mode);
    }

    /** apply_keys */
    method ApplyKeys() returns (err: int)
      modifies this`ctl, this`checked, this`stale
      ensures err == 0 && old(stale) == [] ==>
        && stale == []
        && ctl == old(ctl).(resolving := Listed(keys), resolution := keys != [], syncs := ctl.syncs)
      ensures old(Still()) ==> Still()
      ensures ctl.scan == old(ctl.scan)
    {
      err := SendNext(SetAddrResEnable, [0]);
      if err != 0 { return; }
      err := SendNext(ClearRl, []);
      if err != 0 { return; }
      ghost var base := ctl;
      assert keys[..0] == [];
      for i := 0 to |keys|
        invariant old(stale) == [] ==> stale == [] && ctl == base.(resolving := Listed(keys[..i]), syncs := ctl.syncs)
        invariant old(Still()) ==> Still()
        invariant ctl.scan == old(ctl.scan)
      {
        ListedSnoc(keys[..i], keys[i]);
        assert keys[..i + 1] == keys[..i] + [keys[i]];
        err := ApplyKey(keys[i]);
        if err != 0 { return; }
      }
      assert keys[..|keys|] == keys;
      if |keys| > 0 {
        err := SendNext(SetAddrResEnable, [1]);
      } else {
        err := 0;
      }
    }

    /** apply_filter: the keys first, then the accept list. */
    method ApplyFilter() returns (err: int)
      modifies this`ctl, this`checked, this`stale
      ensures err == 0 && old(stale) == [] ==>
        && stale == []
        && ctl == old(ctl).(resolving := Listed(keys), resolution := keys != [], accept := Addresses(filter),
                            syncs := ctl.syncs)
      ensures old(Still()) ==> Still()
      ensures ctl.scan == old(ctl.scan)
    {
      err := ApplyKeys();
      if err != 0 { return; }
      err := SendNext(ClearFal, []);
      if err != 0 { return; }
      ghost var base := ctl;
      for i := 0 to |filter|
        invariant old(stale) == [] ==> stale == [] && ctl == base.(accept := Addresses(filter[..i]), syncs := ctl.syncs)
        invariant old(Still()) ==> Still()
        invariant ctl.scan == old(ctl.scan)
      {
        err := SendNext(AddDevToFal, filter[i]);
        if err != 0 { return; }
        assert Addresses(filter[..i + 1]) == Addresses(filter[..i]) + {filter[i]};
      }
      assert filter[..|filter|] == filter;
      err := 0;
    }

    /** The reset and everything before the scan parameters. */
    method Prepare() returns (err: int)
      modifies this`ctl, this`checked, this`stale
      ensures err == 0 && Calm(old(stale)) ==> stale == [] && ListsLoaded(ctl, keys, filter) && Unmasked(ctl)
      ensures err == 0 && !running && !old(checked) ==> Still()
      ensures if err == 0 then ctl.scan == Unset else ctl.scan == old(ctl.scan) || ctl.scan == Unset
    {
      BehindReset(stale);
      err := SendReset();
      if err != 0 { return; }
      err := SendNext(SetEventMask, [0xFF, 0xFF, 0xFF, 0xFF, 0xFF, 0xFF, 0xFF, 0x3F]);
      if err != 0 { return; }
      err := SendNext(LeSetEventMask, seq(8, _ => 0xFF));
      if err != 0 { return; }
      err := SendNext(SetRandomAddress, [0x01, 0x02, 0x03, 0x04, 0x05, 0xC0]);
      if err != 0 { return; }
      err := ApplyFilter();
    }

    method StartLegacyScan(interval: uint16, window: uint16) returns (err: int)
      modifies this`ctl, this`checked, this`stale
      ensures err == 0 && old(stale) == [] ==> stale == [] && ctl == old(ctl).(
        scan := Legacy(OWN_ADDR_RANDOM, Policy(filter), PhyScan(SCAN_TYPE_PASSIVE, interval, window)),
        scanning := true, keepRepeats := true, syncs := ctl.syncs)
      ensures old(Still()) ==> Still()
      ensures ctl.scan == old(ctl.scan) || Discreet(ctl.scan)
    {
      var block := Block(interval, window);
      var params := block + [OWN_ADDR_RANDOM, if |filter| > 0 then 1 else 0];
      assert params[..5] == block;
      err := SendNext(SetScanParam, params);
      if err != 0 { return; }
      err := SendNext(SetScanEnable, [1, 0]);
    }

    /** The parameter bytes of the extended scan: one block for each PHY asked for. */
    method ExtendedParams(interval: uint16, window: uint16, phys: byte) returns (params: seq<byte>)
      ensures var block := Block(interval, window);
        params == [OWN_ADDR_RANDOM, if filter != [] then 1 else 0, phys] + Blocks(block, phys, 8)
    {
      var block := Block(interval, window);
      params := [OWN_ADDR_RANDOM, if |filter| > 0 then 1 else 0, phys];
      ghost var head := params;
      for bit := 0 to 8
        invariant params == head + Blocks(block, phys, bit)
      {
        if BitSet(phys, bit) {
          params := params + block;
        }
      }
    }

    method StartExtendedScan(interval: uint16, window: uint16, phys: byte) returns (err: int)
      modifies this`ctl, this`checked, this`stale
      ensures err == 0 && old(stale) == [] ==>
        && stale == []
        && ctl.scan.Extended? && |ctl.scan.scans| == Bits(phys, 8)
        && (forall i :: 0 <= i < |ctl.scan.scans| ==> ctl.scan.scans[i] == PhyScan(SCAN_TYPE_PASSIVE, interval, window))
        && ctl == old(ctl).(scan := Extended(OWN_ADDR_RANDOM, Policy(filter), phys, ctl.scan.scans),
                            scanning := true, keepRepeats := true, syncs := ctl.syncs)
      ensures old(Still()) ==> Still()
      ensures ctl.scan == old(ctl.scan) || Discreet(ctl.scan)
    {
      var params := ExtendedParams(interval, window, phys);
      ExtendedIsRead(ctl, Policy(filter), interval, window, phys, params);
      err := SendNext(SetExtScanParam, params);
      if err != 0 { return; }
      err := SendNext(SetExtScanEnable, [1, 0, 0, 0, 0, 0]);
    }

    /** sn_radio_ble_start. Whatever the controller refused, and whatever calm queue of old
        answers was left, 0 means it ended up as asked, with no old answer left, and with
        no sync if the scan started from a stopped radio. */
    method Start(intervalMs: uint16, windowMs: uint16, phys: byte) returns (err: int)
      modifies this`ctl, this`checked, this`stale
      modifies this`running, this`syncCount, this`bigSynced, this`bigRetryAt, this`bisCount
      ensures err == 0 ==>
        ready && running && syncCount == 0 && !bigSynced && bigRetryAt == 0 && bisCount == 0
      ensures err == 0 && Calm(old(stale)) ==>
        && stale == [] && ListsLoaded(ctl, keys, filter) && Unmasked(ctl)
        && Scans(ctl, filter, intervalMs, windowMs, phys)
        && (!old(running) && !old(checked) ==> ctl.syncs == 0)
      ensures err != 0 ==> running == old(running) && syncCount == old(syncCount) && bigSynced == old(bigSynced)
      ensures !ready ==> err == -19 && ctl == old(ctl)
      ensures ctl.scan == old(ctl.scan) || ctl.scan == Unset || Discreet(ctl.scan)
      ensures err == 0 ==> NeverRequests(ctl.scan)
      ensures err == 0 && Calm(old(stale)) ==>
        && Discreet(ctl.scan) && StaticRandom(ctl.randomAddr)
        && forall addr :: Reports(ctl, addr) <==> filter == [] || addr in filter
    {
      if !ready {
        return -ENODEV;
      }
      var interval := if intervalMs == 0 then DEFAULT_INTERVAL_MS else intervalMs;
      var window := if windowMs == 0 || windowMs > interval then interval else windowMs;
      err := Prepare();
      if err != 0 { return; }
      if phys == PHYS_LEGACY {
        err := StartLegacyScan(Units(interval), Units(window));
      } else {
        err := StartExtendedScan(Units(interval), Units(window), phys);
      }
      if err == 0 {
        ScanStarted();
      }
    }

    method ScanStarted()
      modifies this`running, this`syncCount, this`bigSynced, this`bigRetryAt, this`bisCount
      ensures running && syncCount == 0 && !bigSynced && bigRetryAt == 0 && bisCount == 0
    {
      syncCount, bigSynced, bigRetryAt, bisCount := 0, false, 0, 0;
      running := true;
    }

    /** sn_radio_ble_stop, its batch flush apart. The keys go whether or not the reset is
        answered; with it answered nothing of the capture is left in the
        controller, syncs included unless a worker was already on its way. */
    method Stop() returns (err: int)
      modifies this`ctl, this`checked, this`stale, this`running, this`keys, this`syncCount, this`bigSynced
      ensures !running && keys == [] && syncCount == 0 && !bigSynced
      ensures err == 0 ==>
        && ctl.resolving == [] && !ctl.resolution && ctl.accept == {} && !ctl.scanning
        && (!old(checked) ==> ctl.syncs == 0)
      ensures ctl.scan == Unset || (err != 0 && ctl.scan == old(ctl.scan))
    {
      Halt();
      err := ResetController();
    }

    /** Its beginning: the keys live for one capture. */
    method Halt()
      modifies this`running, this`keys
      ensures !running && keys == []
    {
      running := false;
      keys := [];
    }

    /** And its end, with the scan already off. */
    method ResetController() returns (err: int)
      requires !running
      modifies this`ctl, this`checked, this`stale, this`syncCount, this`bigSynced
      ensures syncCount == 0 && !bigSynced
      ensures err == 0 ==>
        && ctl.resolving == [] && !ctl.resolution && ctl.accept == {} && !ctl.scanning
        && (!old(checked) ==> ctl.syncs == 0)
      ensures ctl.scan == Unset || (err != 0 && ctl.scan == old(ctl.scan))
    {
      syncCount, bigSynced := 0, false;
      err := SendReset();
    }
  }

  /** The five bytes of one scanner's type, interval and window. */
  function Block(interval: uint16, window: uint16): (s: seq<byte>)
    ensures |s| == 5 && ReadScan(s) == PhyScan(SCAN_TYPE_PASSIVE, interval, window)
  {
    [SCAN_TYPE_PASSIVE, interval % 256, interval / 256, window % 256, window / 256]
  }
}
