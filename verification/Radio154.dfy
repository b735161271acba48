/** radio154.c: the receiver's own state, its driver, and the energy measurement that
    borrows the receiver and puts it back. */
module Radio154 {
  import opened Wire

  const EINVAL := 22
  const EIO := 5
  const ETIMEDOUT := 116
  const SHRT_MAX := 32767

  predicate ValidChannel(channel: byte) {
    11 <= channel <= 26
  }

  /** The window in milliseconds for a window in 16 us symbols. */
  function WindowMs(symbols: nat): (ms: uint16) {
    var ms := (symbols * 16 + 999) / 1000;
    if ms > 0xFFFF then 0xFFFF else ms
  }

  /** Rounded up and never by a whole millisecond, or capped from 65534 ms on; and the 32-bit
      arithmetic of the source cannot wrap on a value a command can carry. */
  lemma WindowRoundsUp(symbols: nat)
    requires 0 < symbols < 0x100_0000
    ensures symbols * 16 + 999 < 0x1_0000_0000
    ensures symbols * 16 <= 65534000 ==>
      (WindowMs(symbols) - 1) * 1000 < symbols * 16 <= WindowMs(symbols) * 1000
    ensures symbols * 16 > 65534000 ==> WindowMs(symbols) == 65535
  {
  }

  /** What the driver answers during one measurement. Zero is success. */
  datatype Driver = Driver(tune: int, start: int, scan: int, reading: Reading, retune: bool, resume: bool)

  datatype Reading = NoAnswer | Measured(value: int)

  function Clamp(v: int): (r: int8) {
    if v < -128 then -128 else if v > 127 then 127 else v
  }

  /** The first thing that went wrong, 0 if nothing did. */
  function EdError(d: Driver): (err: int)
    ensures err == 0 <==>
      d.tune == 0 && d.start == 0 && d.scan == 0 && d.reading.Measured? && d.reading.value != 32767
    ensures d.tune == 0 && d.start == 0 && d.scan == 0 && err != 0 ==> err == if d.reading == NoAnswer then -116 else -5
  {
    if d.tune != 0 then d.tune
    else if d.start != 0 then d.start
    else if d.scan != 0 then d.scan
    else if d.reading == NoAnswer then -ETIMEDOUT
    else if d.reading.value == SHRT_MAX then -EIO
    else 0
  }

  class Receiver {
    var running: bool
    var measuring: bool
    var currentChannel: byte
    var captured: uint32
    var fcsFailed: uint32
    // the driver
    var tuned: byte
    var receiving: bool
    var scanMs: uint16          // the window of the last measurement asked for

    /** The receiver is where the firmware believes it is. */
    ghost predicate InStep()
      reads this
    {
      !measuring && tuned == currentChannel && receiving == running
    }

    constructor ()
      ensures InStep() && !running && currentChannel == 11 && captured == 0 && fcsFailed == 0
    {
      running, measuring, currentChannel, captured, fcsFailed := false, false, 11, 0, 0;
      tuned, receiving, scanMs := 11, false, 0;
    }

    method SetChannel(channel: byte, driverErr: int) returns (err: int)
      modifies this`currentChannel, this`tuned
      ensures err == if ValidChannel(channel) then driverErr else -EINVAL
      ensures if err == 0 then currentChannel == channel && tuned == channel
              else currentChannel == old(currentChannel) && tuned == old(tuned)
    {
      if channel < 11 || channel > 26 {
        return -EINVAL;
      }
      if driverErr == 0 {
        tuned := channel;
        currentChannel := channel;
      }
      err := driverErr;
    }

    method Start(driverErr: int) returns (err: int)
      modifies this`running, this`receiving
      ensures err == driverErr
      ensures if err == 0 then running && receiving else running == old(running) && receiving == old(receiving)
    {
      if driverErr == 0 {
        receiving := true;
        running := true;
      }
      err := driverErr;
    }

    method Stop(driverErr: int) returns (err: int)
      modifies this`running, this`receiving
      ensures err == if old(running) then driverErr else 0
      ensures running == (old(running) && driverErr != 0)
      ensures receiving == (if old(running) && driverErr == 0 then false else old(receiving))
    {
      if !running {
        return 0;
      }
      if driverErr == 0 {
        receiving := false;
        running := false;
      }
      err := driverErr;
    }

    /** sn_radio154_energy_detect. Whatever fails in the middle, the firmware's own state
        is untouched; and if the two restoring calls succeed the receiver is back on the
        capture's channel, receiving exactly when a capture runs. */
    method EnergyDetect(channel: byte, symbols: nat, d: Driver) returns (err: int, dbm: int8)
      modifies this`measuring, this`tuned, this`receiving, this`scanMs
      ensures !old(measuring) ==> !measuring
      ensures !ValidChannel(channel) || symbols == 0 ==>
        err == -EINVAL && tuned == old(tuned) && receiving == old(receiving)
      ensures ValidChannel(channel) && symbols > 0 ==>
        && !measuring
        && (d.retune ==> tuned == currentChannel)
        && (d.resume ==> receiving == running)
        && (d.retune && d.resume ==> InStep())
        && (d.tune == 0 && d.start == 0 ==> scanMs == WindowMs(symbols))
        && err == EdError(d)
      ensures err == 0 ==> d.reading.Measured? && dbm == Clamp(d.reading.value)
    {
      dbm := 0;
      if channel < 11 || channel > 26 || symbols == 0 {
        return -EINVAL, 0;
      }
      var wasRunning, previous := running, currentChannel;
      measuring := true;
      err := d.tune;
      if err == 0 {
        tuned := channel;
        err := d.start;
      }
      if err == 0 {
        receiving := true;
        scanMs := WindowMs(symbols);
        err := d.scan;
      }
      if err == 0 {
        if d.reading == NoAnswer {
          err := -ETIMEDOUT;
        } else if d.reading.value == SHRT_MAX {
          err := -EIO;
        } else {
          dbm := Clamp(d.reading.value);
        }
      }
      if d.retune {
        tuned := previous;
      }
      if d.resume {
        receiving := wasRunning;
      }
      measuring := false;
    }

    /** The gate at the head of net_recv_data: taken, counted and tagged only while a
        capture runs and the receiver is not borrowed. */
    method Gate(empty: bool) returns (taken: bool, channel: byte)
      modifies this`captured
      ensures taken <==> !empty && running && !measuring
      ensures channel == currentChannel
      ensures captured == if taken then Add32(old(captured), 1) else old(captured)
    {
      channel := currentChannel;
      if empty || measuring || !running {
        return false, channel;
      }
      captured := Add32(captured, 1);
      taken := true;
    }

    /** radio_event on a reception the radio discarded for a bad checksum. */
    method BadFcs()
      modifies this`fcsFailed
      ensures fcsFailed == if running && !measuring then Add32(old(fcsFailed), 1) else old(fcsFailed)
    {
      if running && !measuring {
        fcsFailed := Add32(fcsFailed, 1);
      }
    }

    method ResetCounters()
      modifies this`captured, this`fcsFailed
      ensures captured == 0 && fcsFailed == 0
    {
      captured, fcsFailed := 0, 0;
    }
  }
}
