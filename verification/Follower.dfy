/** Following periodic trains in its own form: the announcement noticed on the forwarding
    thread, the four-deep request queue, and the worker's loop over it. */
module Follower {
  import opened Wire
  import PeriodicSync

  const QUEUE_DEPTH := 4
  const MAX_SYNCS := PeriodicSync.MAX_SYNCS
  const NO_ADDRESS: byte := 0xFF

  datatype SyncReq = SyncReq(sid: byte, addrType: byte, addr: seq<byte>)

  /** An extended advertising report, H4 byte in front, whose first report has a periodic
      interval and an address to sync to. */
  predicate Announces(hci: seq<byte>) {
    && |hci| >= 21 && hci[1] == 0x3E && hci[3] == 0x0D
    && Le16(hci[19], hci[20]) != 0
    && hci[7] != NO_ADDRESS
  }

  /** The train an announcement names. Identity address types 2 and 3 become the public
      and random types a Create Sync takes. */
  function Train(hci: seq<byte>): (r: SyncReq)
    requires Announces(hci)
    ensures r.addrType <= 1 && |r.addr| == 6
  {
    SyncReq(hci[16], hci[7] % 2, hci[8..14])
  }

  /** LE Extended Advertising Report with its H4 byte, section 7.7.65.13 of Bluetooth Core
      Vol 4 Part E, as far as its first report's advertising data. */
  function ExtendedReport(length: byte, reports: byte, eventType: uint16, addrType: byte, addr: seq<byte>, phys: seq<byte>,
                          sid: byte, power: byte, rssi: byte, interval: uint16, rest: seq<byte>): (hci: seq<byte>)
    requires |addr| == 6 && |phys| == 2
  {
    [0x04, 0x3E, length, 0x0D, reports] + ToLe(eventType, 2) + [addrType] + addr + phys + [sid, power, rssi]
      + ToLe(interval, 2) + rest
  }

  /** A train is announced exactly by a periodic interval and an address, and is the one of
      that advertising SID and address, with identity address types 2 and 3 as 0 and 1. */
  lemma TrainIsReported(length: byte, reports: byte, eventType: uint16, addrType: byte, addr: seq<byte>, phys: seq<byte>,
                        sid: byte, power: byte, rssi: byte, interval: uint16, rest: seq<byte>)
    requires |addr| == 6 && |phys| == 2
    ensures var hci := ExtendedReport(length, reports, eventType, addrType, addr, phys, sid, power, rssi, interval, rest);
      && (Announces(hci) <==> interval != 0 && addrType != 0xFF)
      && (Announces(hci) && addrType <= 3 ==>
            Train(hci) == SyncReq(sid, if addrType == 0 || addrType == 2 then 0 else 1, addr))
  {
    var head := [0x04, 0x3E, length, 0x0D, reports] + ToLe(eventType, 2) + [addrType];
    var hci := ExtendedReport(length, reports, eventType, addrType, addr, phys, sid, power, rssi, interval, rest);
    assert |head| == 8 && hci[7] == addrType && hci[1] == 0x3E && hci[3] == 0x0D;
    assert hci[8..14] == addr && hci[16] == sid;
    assert hci[19] == ToLe(interval, 2)[0] && hci[20] == ToLe(interval, 2)[1];
    Le16Reads(interval);
  }

  /** LE Periodic Advertising Create Sync, section 7.8.67 of Bluetooth Core Vol 4 Part E. */
  datatype CreateSync = CreateSync(
    options: byte, sid: byte, addrType: byte, addr: seq<byte>, skip: uint16, timeout: uint16, cteType: byte)

  function DecodeCreate(p: seq<byte>): (c: CreateSync)
    requires |p| == 14
  {
    CreateSync(p[0], p[1], p[2], p[3..9], Le16(p[9], p[10]), Le16(p[11], p[12]), p[13])
  }

  /** The address given rather than the advertiser list, no skip, ten seconds. */
  function Follow(r: SyncReq): (c: CreateSync) {
    CreateSync(0, r.sid, r.addrType, r.addr, 0, 1000, 0)
  }

  /** The parameters sync_work_fn assembles. */
  function Params(r: SyncReq): (p: seq<byte>) {
    [0, r.sid, r.addrType] + r.addr + [0, 0, 0xE8, 0x03, 0]
  }

  /** The bytes say what they should at the offsets the section gives. */
  lemma ParamsDecode(r: SyncReq)
    requires |r.addr| == 6
    ensures |Params(r)| == 14 && DecodeCreate(Params(r)) == Follow(r)
  {
    assert Params(r)[3..9] == r.addr;
  }

  function AllParams(rs: seq<SyncReq>): (ps: seq<seq<byte>>)
    ensures |ps| == |rs|
  {
    if rs == [] then [] else [Params(rs[0])] + AllParams(rs[1..])
  }

  /** Of the queued requests, those the worker puts to the controller: as long as a slot
      is free. `answers` are the controller's, one for each put to it. */
  function Asked(q: seq<SyncReq>, free: nat, answers: seq<bool>): (asked: seq<SyncReq>)
    requires |answers| >= |q|
    decreases |q|
  {
    if q == [] || free == 0 then []
    else [q[0]] + Asked(q[1..], if answers[0] then free - 1 else free, answers[1..])
  }

  /** How many of them were accepted. */
  function Accepted(q: seq<SyncReq>, free: nat, answers: seq<bool>): (n: nat)
    requires |answers| >= |q|
    ensures n <= free
    decreases |q|
  {
    if q == [] || free == 0 then 0
    else if answers[0] then 1 + Accepted(q[1..], free - 1, answers[1..])
    else Accepted(q[1..], free, answers[1..])
  }

  /** A refusal costs nothing: the next request is still put. An acceptance uses the slot:
      with one slot at most one request is ever accepted, and none is put after it. */
  lemma {:induction false} OneSlot(q: seq<SyncReq>, answers: seq<bool>)
    requires |answers| >= |q|
    ensures var asked := Asked(q, 1, answers);
      && asked <= q
      && (Accepted(q, 1, answers) == 1 <==> asked != [] && answers[|asked| - 1])
      && (Accepted(q, 1, answers) == 0 ==> asked == q)
    decreases |q|
  {
    if q != [] {
      if answers[0] {
        assert Asked(q[1..], 0, answers[1..]) == [];
        assert Asked(q, 1, answers) == [q[0]];
      } else {
        OneSlot(q[1..], answers[1..]);
        assert q == [q[0]] + q[1..];
      }
    }
  }

  class TrainFollower {
    var running: bool
    var periodicEnabled: bool
    var syncCount: nat
    var queue: seq<SyncReq>          // sync_q
    var periodicSeen: uint32
    var commands: seq<seq<byte>>     // every Create Sync sent, as its parameter bytes

    ghost predicate Valid()
      reads this
    {
      |queue| <= QUEUE_DEPTH && syncCount <= MAX_SYNCS
    }

    constructor ()
      ensures Valid() && !running && !periodicEnabled && syncCount == 0 && queue == [] && commands == []
    {
      running, periodicEnabled, syncCount, queue, periodicSeen, commands := false, false, 0, [], 0, [];
    }

    /** note_periodic: counted whenever announced, queued while there is room. */
    method NotePeriodic(hci: seq<byte>) returns (submitted: bool)
      requires Valid()
      modifies this`queue, this`periodicSeen
      ensures Valid()
      ensures submitted <==> Announces(hci) && |old(queue)| < 4
      ensures submitted ==> queue == old(queue) + [Train(hci)]
      ensures !submitted ==> queue == old(queue)
      ensures periodicSeen == if Announces(hci) then Add32(old(periodicSeen), 1) else old(periodicSeen)
    {
      if |hci| < 21 || hci[1] != 0x3E || hci[3] != 0x0D {
        return false;
      }
      if hci[19] == 0 && hci[20] == 0 {
        return false;
      }
      if hci[7] == NO_ADDRESS {
        return false;
      }
      periodicSeen := Add32(periodicSeen, 1);
      if |queue| == QUEUE_DEPTH {
        return false;
      }
      queue := queue + [SyncReq(hci[16], hci[7] % 2, hci[8..14])];
      submitted := true;
    }

    /** One turn of sync_work_fn's loop: the check with the command, and the count. What
        may come between turns, and between check, command and count, is in PeriodicSync.
        `success` is hci_command's return, if it is called. */
    method SyncOne(success: bool)
      requires Valid() && queue != []
      modifies this`queue, this`syncCount, this`commands
      ensures Valid() && queue == old(queue[1..])
      ensures var asks := running && periodicEnabled && old(syncCount) < 1;
        && commands == old(commands) + (if asks then [Params(old(queue[0]))] else [])
        && syncCount == old(syncCount) + (if asks && success then 1 else 0)
    {
      var req := queue[0];
      queue := queue[1..];
      if !running || !periodicEnabled || syncCount >= MAX_SYNCS {
        return;
      }
      commands := commands + [Params(req)];
      if success {
        syncCount := syncCount + 1;
      }
    }

    /** sync_work_fn over a queue nothing else touches meanwhile: it ends empty, and
        requests are put only while scanning, while asked to follow trains, and while a
        slot is free. */
    method SyncWork(answers: seq<bool>)
      requires Valid() && |answers| >= |queue|
      modifies this`queue, this`syncCount, this`commands
      ensures Valid() && queue == []
      ensures var free := Free(old(syncCount));
        && syncCount == old(syncCount) + Accepted(old(queue), free, answers)
        && commands == old(commands) + AllParams(Asked(old(queue), free, answers))
    {
      var left := answers;
      ghost var all := AllParams(Asked(queue, Free(syncCount), left));
      ghost var total := syncCount + Accepted(queue, Free(syncCount), left);
      while queue != []
        invariant |left| >= |queue| && Valid()
        invariant commands + AllParams(Asked(queue, Free(syncCount), left)) == old(commands) + all
        invariant syncCount + Accepted(queue, Free(syncCount), left) == total
        decreases |queue|
      {
        ghost var rest := AllParams(Asked(queue, Free(syncCount), left));
        ghost var first, more := queue[0], queue[1..];
        ghost var asks := Free(syncCount) > 0;
        ghost var was := commands;
        SyncOne(left[0]);
        left := left[1..];
        if asks {
          assert rest == [Params(first)] + AllParams(Asked(queue, Free(syncCount), left));
          assert was + rest == commands + AllParams(Asked(queue, Free(syncCount), left));
        }
      }
    }

    /** Slots a request may still take. */
    ghost function Free(count: nat): (n: nat)
      reads this`running, this`periodicEnabled
    {
      if running && periodicEnabled && count < MAX_SYNCS then MAX_SYNCS - count else 0
    }
  }
}
