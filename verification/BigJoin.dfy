/** Joining a broadcast: a BIGInfo report noticed on the forwarding thread, a request
    handed to a work item, and the flags that keep it to one attempt at a time.

    note_biginfo() and each case of note_counts() is one step; the worker's check with
    its send, its verdict and its release of the request are three. The controller takes
    or refuses a command when it is sent; what hci_command returns may differ. */
module BigJoin {
  import opened Wire

  /** CONFIG_BT_CTLR_SYNC_ISO_STREAM_COUNT, which follows CONFIG_BT_ISO_MAX_CHAN. */
  const MAX_BIS := 2
  const BIG_RETRY_MS := 5000
  const EVT_LE_META: byte := 0x3E
  const SUBEVT_BIGINFO: byte := 0x22

  // ---- the request ----

  /** A report note_biginfo acts on: an unencrypted group of at least one stream. */
  predicate Joinable(hci: seq<byte>) {
    && |hci| >= 23 && hci[1] == EVT_LE_META && hci[3] == SUBEVT_BIGINFO
    && hci[6] != 0 && hci[22] == 0
  }

  /** Stream indices, from one. */
  function Indices(n: nat): (s: seq<byte>)
    requires n <= MAX_BIS
    ensures |s| == n && forall i :: 0 <= i < n ==> s[i] == i + 1
  {
    if n == 0 then [] else Indices(n - 1) + [n]
  }

  function Streams(hci: seq<byte>): (n: nat)
    requires Joinable(hci)
    ensures 1 <= n <= MAX_BIS
  {
    if hci[6] > MAX_BIS then MAX_BIS else hci[6]
  }

  /** LE BIG Create Sync, section 7.8.106 of Bluetooth Core Vol 4 Part E. */
  datatype CreateSync = CreateSync(
    bigHandle: byte, syncHandle: uint16, encryption: byte, code: seq<byte>, mse: byte, timeout: uint16, bis: seq<byte>)

  function DecodeRequest(p: seq<byte>): (c: CreateSync)
    requires |p| >= 24
  {
    CreateSync(p[0], Le16(p[1], p[2]), p[3], p[4..20], p[20], Le16(p[21], p[22]), p[24..])
  }

  /** The command a report leads to. */
  function Wanted(hci: seq<byte>): (c: CreateSync)
    requires Joinable(hci)
  {
    CreateSync(0, Le16(hci[4], hci[5]), 0, seq(16, _ => 0), 0, 200, Indices(Streams(hci)))
  }

  /** LE BIGInfo Advertising Report with its H4 byte, section 7.7.65.34 of Bluetooth Core
      Vol 4 Part E. `middle` is from NSE to the PHY and the framing. */
  function BigInfo(length: byte, syncHandle: uint16, streams: byte, middle: seq<byte>, encryption: byte): (hci: seq<byte>)
    requires |middle| == 15
  {
    [0x04, 0x3E, length, 0x22] + ToLe(syncHandle, 2) + [streams] + middle + [encryption]
  }

  /** A group can be joined exactly when it has a stream and is not encrypted; what is asked
      for is that group, as many of its streams as the board has sinks for, counted from
      one, and two seconds. */
  lemma GroupIsReported(length: byte, syncHandle: uint16, streams: byte, middle: seq<byte>, encryption: byte)
    requires |middle| == 15
    ensures var hci := BigInfo(length, syncHandle, streams, middle, encryption);
      && (Joinable(hci) <==> streams > 0 && encryption == 0)
      && (Joinable(hci) ==>
            Wanted(hci) == CreateSync(0, syncHandle, 0, seq(16, _ => 0), 0, 200, if streams == 1 then [1] else [1, 2]))
  {
    var hci := BigInfo(length, syncHandle, streams, middle, encryption);
    assert hci[4] == ToLe(syncHandle, 2)[0] && hci[5] == ToLe(syncHandle, 2)[1];
    assert hci[6] == streams && hci[22] == encryption;
    Le16Reads(syncHandle);
    assert Indices(1) == [1] && Indices(2) == [1, 2];
  }

  ghost predicate Asks(p: seq<byte>, hci: seq<byte>) {
    && Joinable(hci) && |p| == 24 + Streams(hci)
    && p[23] == Streams(hci) && DecodeRequest(p) == Wanted(hci)
  }

  // ---- the state machine ----

  datatype Worker = Resting | Submitted | Asked | Judged

  datatype When = Never | At(ms: int)

  /** The controller's broadcast group. */
  datatype Group = NoGroup | Joining | Joined

  datatype Request = Request(params: seq<byte>, report: seq<byte>)

  datatype Big = Big(
    running: bool,
    synced: bool,               // big_synced
    retryAt: int,               // big_retry_at
    pending: bool,              // big_pending
    params: seq<byte>,          // big_params, as far as big_len
    worker: Worker,
    now: int,                   // k_uptime_get()
    group: Group,
    report: seq<byte>,          // history: the report params was written from
    lastAsked: When,            // history: last Create Sync of this scan with no loss since
    requests: seq<Request>)     // history: every Create Sync sent

  datatype Event =
    | Tick(ms: nat)
    | Report(hci: seq<byte>, params: seq<byte>)
    | WorkerRuns(accepted: bool)
    | WorkerJudges(ok: bool)    // hci_command() == 0
    | WorkerReleases
    | Established(ok: bool) | Lost
    | Stop | ControllerReset | ScanStarted

  function Init(): (s: Big) {
    Big(false, false, 0, false, [], Resting, 0, NoGroup, [], Never, [])
  }

  /** Whether note_biginfo gets as far as taking big_pending. */
  predicate Takes(s: Big, hci: seq<byte>) {
    Joinable(hci) && !s.synced && s.now >= s.retryAt && !s.pending
  }

  ghost predicate Enabled(s: Big, e: Event) {
    match e
    case Tick(_) => true
    case Report(hci, params) => s.running && (Takes(s, hci) ==> Asks(params, hci))
    case WorkerRuns(accepted) => s.worker == Submitted && (accepted ==> s.group == NoGroup)
    case WorkerJudges(_) => s.worker == Asked
    case WorkerReleases => s.worker == Judged
    case Established(_) => s.group == Joining
    case Lost => s.group == Joined
    case Stop => true
    case ControllerReset => true
    case ScanStarted => true
  }

  function Step(s: Big, e: Event): (r: Big) {
    match e
    case Tick(ms) => s.(now := s.now + ms)
    case Report(hci, params) =>
      if !Takes(s, hci) then s
      else s.(pending := true, params := params, report := hci, worker := Submitted)
    case WorkerRuns(accepted) =>
      if s.running then
        s.(worker := Asked, lastAsked := At(s.now), requests := s.requests + [Request(s.params, s.report)],
           group := if accepted then Joining else s.group)
      else s.(worker := Judged, retryAt := s.now + BIG_RETRY_MS)
    case WorkerJudges(ok) =>
      if ok then s.(worker := Judged, synced := true) else s.(worker := Judged, retryAt := s.now + BIG_RETRY_MS)
    case WorkerReleases => s.(worker := Resting, pending := false)
    case Established(ok) => NoteEstablished(s.(group := if ok then Joined else NoGroup), ok)
    case Lost =>
      var r := s.(group := NoGroup);
      if s.running then r.(synced := false, lastAsked := Never) else r
    case Stop => s.(running := false, synced := false, lastAsked := Never)
    case ControllerReset => s.(group := NoGroup)
    case ScanStarted => s.(running := true, synced := false, retryAt := 0, lastAsked := Never)
  }

  /** Read only while the scan runs. */
  function NoteEstablished(s: Big, ok: bool): (r: Big) {
    if !s.running then s
    else if ok then s.(synced := true)
    else s.(synced := false, retryAt := s.now + BIG_RETRY_MS)
  }

  /** `es` is a run from `s` to `t`. */
  ghost predicate Leads(s: Big, es: seq<Event>, t: Big)
    decreases |es|
  {
    if es == [] then s == t else Enabled(s, es[0]) && Leads(Step(s, es[0]), es[1..], t)
  }

  /** The buffer belongs to whoever took big_pending. */
  ghost predicate Owned(s: Big) {
    && (s.pending <==> s.worker != Resting)
    && (s.worker == Submitted || s.worker == Asked ==> Asks(s.params, s.report))
    && forall i :: 0 <= i < |s.requests| ==> Asks(s.requests[i].params, s.requests[i].report)
  }

  /** Since the last Create Sync: its verdict is outstanding, or the broadcast is joined,
      or no other may be tried for five seconds, or one is due and they have passed. */
  ghost predicate Spaced(s: Big) {
    s.lastAsked.At? ==>
      var t := s.lastAsked.ms;
      && s.running && t <= s.now
      && (s.worker == Asked || s.synced || s.retryAt >= t + BIG_RETRY_MS
          || (s.worker == Submitted && s.now >= t + BIG_RETRY_MS))
      && (s.worker == Submitted ==> s.now >= t + BIG_RETRY_MS)
  }

  ghost predicate Inv(s: Big) {
    Owned(s) && Spaced(s)
  }

  lemma WorkerKeeps(s: Big, e: Event)
    requires Inv(s) && Enabled(s, e) && (e.WorkerRuns? || e.WorkerJudges? || e.WorkerReleases?)
    ensures Inv(Step(s, e))
  {
  }

  lemma ReportKeeps(s: Big, e: Event)
    requires Inv(s) && Enabled(s, e) && (e.Report? || e.Established? || e.Lost?)
    ensures Inv(Step(s, e))
  {
  }

  lemma OtherKeeps(s: Big, e: Event)
    requires Inv(s) && Enabled(s, e) && (e.Tick? || e.Stop? || e.ControllerReset? || e.ScanStarted?)
    ensures Inv(Step(s, e))
  {
  }

  lemma StepKeeps(s: Big, e: Event)
    requires Inv(s) && Enabled(s, e)
    ensures Inv(Step(s, e))
  {
    if e.WorkerRuns? || e.WorkerJudges? || e.WorkerReleases? {
      WorkerKeeps(s, e);
    } else if e.Report? || e.Established? || e.Lost? {
      ReportKeeps(s, e);
    } else {
      OtherKeeps(s, e);
    }
  }

  lemma {:induction false} RunKeeps(s: Big, es: seq<Event>, t: Big)
    requires Inv(s) && Leads(s, es, t)
    ensures Inv(t)
    decreases |es|
  {
    if es != [] {
      StepKeeps(s, es[0]);
      RunKeeps(Step(s, es[0]), es[1..], t);
    }
  }

  ghost predicate Reachable(s: Big) {
    exists es :: Leads(Init(), es, s)
  }

  lemma ReachableInv(s: Big)
    requires Reachable(s)
    ensures Inv(s)
  {
    var es :| Leads(Init(), es, s);
    RunKeeps(Init(), es, s);
  }

  /** Every Create Sync sent comes whole from one unencrypted report, with one stream or
      more, at most what the controller holds, numbered from one. */
  lemma RequestsAreWhole(s: Big, i: nat)
    requires Reachable(s) && i < |s.requests|
    ensures var q := s.requests[i];
      && Joinable(q.report) && |q.params| >= 24
      && DecodeRequest(q.params) == Wanted(q.report)
      && q.params[23] == |DecodeRequest(q.params).bis|
      && 1 <= |DecodeRequest(q.params).bis| <= MAX_BIS
  {
    ReachableInv(s);
  }

  /** Only the winner of big_pending writes the request, and until the worker lets go
      nobody does: no step in between changes it. */
  lemma RequestIsHeld(s: Big, e: Event)
    requires Reachable(s) && Enabled(s, e) && s.pending
    ensures Step(s, e).params == s.params && Step(s, e).report == s.report
    ensures e == WorkerReleases || Step(s, e).pending
  {
    ReachableInv(s);
  }

  /** Within one scan, two Create Sync commands with no loss of the broadcast between them
      are at least five seconds apart. */
  lemma AttemptsAreSpaced(s: Big, accepted: bool)
    requires Reachable(s) && Enabled(s, WorkerRuns(accepted)) && s.running && s.lastAsked.At?
    ensures Step(s, WorkerRuns(accepted)).lastAsked.At?
    ensures Step(s, WorkerRuns(accepted)).lastAsked.ms - s.lastAsked.ms >= 5000
  {
    ReachableInv(s);
  }

  // ---- big_synced against the controller ----

  /** Scanning with big_synced set, no group in the controller and no request on its way:
      no BIGInfo is acted on. */
  predicate Deaf(s: Big) {
    s.running && s.synced && s.group == NoGroup && (s.worker == Resting || s.worker == Judged)
  }

  /** Exactly when that comes about: hci_command returns 0 for a group that has failed or
      gone meanwhile, or was refused; or the controller is reset under a scan that goes on
      running with big_synced set. */
  lemma DeafExactly(s: Big, e: Event)
    requires Enabled(s, e) && !Deaf(s)
    ensures Deaf(Step(s, e)) <==>
      && s.running
      && ((e == WorkerJudges(true) && s.group == NoGroup)
          || (e == WorkerJudges(false) && s.group == NoGroup && s.synced)
          || (e == ControllerReset && s.synced && (s.worker == Resting || s.worker == Judged)))
  {
  }

  lemma DeafKeeps(s: Big, e: Event)
    requires Deaf(s) && Enabled(s, e) && !e.Stop? && !e.ScanStarted?
    ensures Deaf(Step(s, e)) && Step(s, e).requests == s.requests
  {
  }

  /** And it lasts: until a STOP or the next scan no other broadcast is asked for. */
  lemma {:induction false} DeafIsForGood(s: Big, es: seq<Event>, t: Big)
    requires Deaf(s) && Leads(s, es, t) && forall e :: e in es ==> !e.Stop? && !e.ScanStarted?
    ensures Deaf(t) && t.requests == s.requests
    decreases |es|
  {
    if es != [] {
      DeafKeeps(s, es[0]);
      DeafIsForGood(Step(s, es[0]), es[1..], t);
    }
  }

  /** Nothing between the worker's command and its verdict, which is the controller's; no
      reset while the scan runs; and a scan starts from a stopped radio, its group gone
      with START's reset. */
  predicate Clean(s: Big, e: Event) {
    && (s.worker == Asked ==> e == WorkerJudges(s.group == Joining))
    && (e == ControllerReset ==> !s.running)
    && (e == ScanStarted ==> !s.running && s.group == NoGroup)
  }

  ghost predicate CleanlyLeads(s: Big, es: seq<Event>, t: Big)
    decreases |es|
  {
    if es == [] then s == t
    else Enabled(s, es[0]) && Clean(s, es[0]) && CleanlyLeads(Step(s, es[0]), es[1..], t)
  }

  ghost predicate Agrees(s: Big) {
    && (s.worker == Asked ==> s.running && !s.synced && s.group != Joined)
    && (s.running && s.worker == Submitted ==> s.group == NoGroup)
    && (s.running && s.worker != Asked ==> (s.synced <==> s.group != NoGroup))
  }

  lemma CleanKeeps(s: Big, e: Event)
    requires Agrees(s) && Enabled(s, e) && Clean(s, e)
    ensures Agrees(Step(s, e))
  {
  }

  lemma {:induction false} CleanRun(s: Big, es: seq<Event>, t: Big)
    requires Agrees(s) && CleanlyLeads(s, es, t)
    ensures Agrees(t)
    decreases |es|
  {
    if es != [] {
      CleanKeeps(s, es[0]);
      CleanRun(Step(s, es[0]), es[1..], t);
    }
  }

  /** In a clean run big_synced is set, while scanning and with no request on its way,
      exactly while the controller joins or has joined a group: it is never deaf. */
  lemma SyncedAgrees(es: seq<Event>, t: Big)
    requires CleanlyLeads(Init(), es, t) && t.running && t.worker != Asked
    ensures t.synced <==> t.group != NoGroup
    ensures !Deaf(t)
  {
    CleanRun(Init(), es, t);
  }

  // ---- a board gone deaf ----

  /** A set of states that holds the first one and everything a step leads to. */
  ghost predicate IsClosed(reached: Big -> bool) {
    reached(Init()) && forall s, e :: reached(s) && Enabled(s, e) ==> reached(Step(s, e))
  }

  type Closed = reached: Big -> bool | IsClosed(reached) ghost witness (s: Big) => true

  ghost function Reached(): Big -> bool {
    s => Reachable(s)
  }

  lemma {:induction false} RunAppend(s: Big, es: seq<Event>, t: Big, e: Event)
    requires Leads(s, es, t) && Enabled(t, e)
    ensures Leads(s, es + [e], Step(t, e))
    decreases |es|
  {
    if es == [] {
      assert [e][1..] == [] && es + [e] == [e];
      assert Leads(Step(s, e), [], Step(s, e));
    } else {
      assert (es + [e])[1..] == es[1..] + [e];
      RunAppend(Step(s, es[0]), es[1..], t, e);
    }
  }

  lemma ReachableIsClosed()
    ensures IsClosed(Reached())
  {
    assert Leads(Init(), [], Init());
    forall s, e | Reachable(s) && Enabled(s, e) ensures Reachable(Step(s, e)) {
      var es :| Leads(Init(), es, s);
      RunAppend(Init(), es, s, e);
    }
  }

  lemma Onward(reached: Closed, s: Big, e: Event) returns (r: Big)
    requires reached(s) && Enabled(s, e)
    ensures r == Step(s, e) && reached(r)
  {
    r := Step(s, e);
  }

  lemma GoesDeafIn(reached: Closed, hci: seq<byte>, params: seq<byte>) returns (s: Big)
    requires Asks(params, hci)
    ensures reached(s) && Deaf(s) && s.worker == Resting
  {
    s := Onward(reached, Init(), ScanStarted);
    s := Onward(reached, s, Report(hci, params));
    s := Onward(reached, s, WorkerRuns(true));
    s := Onward(reached, s, Established(false));
    s := Onward(reached, s, WorkerJudges(true));
    s := Onward(reached, s, WorkerReleases);
  }

  /** It can happen: the join's failure is read before the worker notes that it was taken,
      against what the comment on that failure says. */
  lemma GoesDeaf(hci: seq<byte>, params: seq<byte>) returns (s: Big)
    requires Asks(params, hci)
    ensures Reachable(s) && Deaf(s) && s.worker == Resting
  {
    ReachableIsClosed();
    s := GoesDeafIn(Reached(), hci, params);
  }

  // ---- note_biginfo in its own form ----

  class Joiner {
    const bigParams: array<byte>
    var bigLen: nat
    var bigSynced: bool
    var bigRetryAt: int
    var bigPending: bool

    ghost predicate Valid()
      reads this
    {
      bigParams.Length == 25 + MAX_BIS && bigLen <= bigParams.Length
    }

    constructor ()
      ensures Valid() && fresh(bigParams) && !bigSynced && !bigPending && bigRetryAt == 0
    {
      bigParams := new byte[25 + MAX_BIS](_ => 0);
      bigLen, bigSynced, bigRetryAt, bigPending := 0, false, 0, false;
    }

    /** The command bytes for a joinable report. */
    method Assemble(hci: seq<byte>) returns (params: seq<byte>)
      requires Joinable(hci)
      ensures Asks(params, hci)
    {
      var n := hci[6];
      if n > MAX_BIS {
        n := MAX_BIS;
      }
      var syncHandle := Le16(hci[4], hci[5]);
      ToLe16(syncHandle);
      params := [0] + ToLe(syncHandle, 2) + [0] + seq(16, _ => 0) + [0, 0xC8, 0x00, n];
      ghost var head := params;
      for i := 0 to n
        invariant params == head + Indices(i)
      {
        params := params + [i + 1];
      }
      assert params[24..] == Indices(n);
      assert params[4..20] == seq(16, _ => 0);
    }

    /** note_biginfo(): `submitted` says whether the work item was queued. */
    method NoteBigInfo(hci: seq<byte>, now: int) returns (submitted: bool)
      requires Valid()
      modifies this`bigPending, this`bigLen, bigParams
      ensures Valid()
      ensures submitted <==> Joinable(hci) && !old(bigSynced) && now >= old(bigRetryAt) && !old(bigPending)
      ensures submitted ==> bigPending && Asks(bigParams[..bigLen], hci)
      ensures !submitted ==>
        bigPending == old(bigPending) && bigLen == old(bigLen) && bigParams[..] == old(bigParams[..])
    {
      if |hci| < 23 || hci[1] != EVT_LE_META || hci[3] != SUBEVT_BIGINFO {
        return false;
      }
      if bigSynced || now < bigRetryAt {
        return false;
      }
      if hci[6] == 0 || hci[22] != 0 {
        return false;
      }
      var params := Assemble(hci);
      if bigPending {
        return false;
      }
      bigPending := true;
      for i := 0 to |params|
        modifies bigParams
        invariant forall k :: 0 <= k < i ==> bigParams[k] == params[k]
      {
        bigParams[i] := params[i];
      }
      bigLen := |params|;
      assert bigParams[..bigLen] == params;
      submitted := true;
    }

    /** big_work_fn() after its command: accepted, or refused, timed out or not sent. */
    method Judge(accepted: bool, now: int)
      requires Valid()
      modifies this`bigSynced, this`bigRetryAt, this`bigPending
      ensures Valid() && !bigPending
      ensures accepted ==> bigSynced && bigRetryAt == old(bigRetryAt)
      ensures !accepted ==> bigSynced == old(bigSynced) && bigRetryAt == now + 5000
    {
      if accepted {
        bigSynced := true;
      } else {
        bigRetryAt := now + BIG_RETRY_MS;
      }
      bigPending := false;
    }
  }
}
