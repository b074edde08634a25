/**
  The ITG-3200 driver. Requests to the I2C transport are recorded, in order, in
  `commands`; events dispatched to listeners are recorded in `events`. The
  startup timer is `timerPending`, and the timer firing is a call of OnGyroReady.
*/
module ITG3200 {
  import opened Wrappers
  import opened Protocol
  import opened FrameDecoder
  import opened Calibration

  /** A missing or falsy (zero) address selects ID_AD0_VDD. */
  function ResolveAddress(address: Option<int>): (a: int)
    ensures a != 0
    ensures address.Some? && address.value != 0 ==> a == address.value
    ensures address.None? || address.value == 0 ==> a == ID_AD0_VDD
  {
    if address.Some? && address.value != 0 then address.value else ID_AD0_VDD
  }

  /** autoStart is true unless the caller passed a value. */
  function ResolveAutoStart(autoStart: Option<bool>): (b: bool)
    ensures autoStart.None? ==> b
    ensures autoStart.Some? ==> b == autoStart.value
  {
    if autoStart.None? then true else autoStart.value
  }

  /** The configuration writes sent on construction. */
  function InitCommands(address: int): (cmds: seq<I2CRequest>)
    ensures |cmds| == 4 && forall i :: 0 <= i < 4 ==> cmds[i].Write? && cmds[i].address == address
  {
    [ Write(address, SMPLRT_DIV, 0x00),  // fastest sample rate
      Write(address, DLPF_FS, 0x18),     // +-2000 deg/s, 256 Hz low pass, 8 kHz internal rate
      Write(address, PWR_MGM, 0x00),     // internal oscillator
      Write(address, INT_CFG, 0x05) ]    // ITG ready and raw data ready interrupt bits
  }

  class GyroITG3200 {
    const address: int
    const autoStart: bool
    var isReading: bool
    var timerPending: bool

    // Raw signed axis values of the last decoded frame.
    var x: int
    var y: int
    var z: int

    var polarities: Xyz<int>
    var gains: Xyz<real>
    var offsets: Xyz<real>

    var commands: seq<I2CRequest>
    var events: seq<GyroEvent>

    ghost predicate Valid()
      reads this
    {
      && IsPolarity(polarities.x) && IsPolarity(polarities.y) && IsPolarity(polarities.z)
      && InInt16(x) && InInt16(y) && InInt16(z)
      // every request log starts with the configuration writes
      && |commands| >= 4 && commands[..4] == InitCommands(address)
      // the reading flag tells whether the transport was last told to stream
      && (isReading <==> StreamingRequested(commands))
      // READY is dispatched once: the pending timer or a READY already in the log
      && Count(events, GyroReady) + (if timerPending then 1 else 0) == 1
    }

    constructor (autoStart: Option<bool>, address: Option<int>)
      ensures Valid()
      ensures this.address == ResolveAddress(address)
      ensures this.autoStart == ResolveAutoStart(autoStart)
      ensures !isReading && timerPending
      ensures x == 0 && y == 0 && z == 0
      ensures polarities == Xyz(1, 1, 1)
      ensures gains == Xyz(1.0, 1.0, 1.0) && offsets == Xyz(0.0, 0.0, 0.0)
      ensures commands == InitCommands(this.address) && events == []
    {
      this.address := ResolveAddress(address);
      this.autoStart := ResolveAutoStart(autoStart);
      isReading := false;
      timerPending := false;
      x, y, z := 0, 0, 0;
      gains := Xyz(1.0, 1.0, 1.0);
      offsets := Xyz(0.0, 0.0, 0.0);
      polarities := Xyz(0, 0, 0);
      commands, events := [], [];
      new;
      SetRevPolarity(false, false, false);
      Init();
      WritesDoNotStream(commands);
    }

    /** Sets each axis polarity to -1 when its flag is set and to +1 otherwise. */
    method SetRevPolarity(xRev: bool, yRev: bool, zRev: bool)
      modifies this`polarities
      ensures old(Valid()) ==> Valid()
      ensures IsPolarity(polarities.x) && IsPolarity(polarities.y) && IsPolarity(polarities.z)
      ensures polarities == Xyz(Polarity(xRev), Polarity(yRev), Polarity(zRev))
    {
      polarities := Xyz(if xRev then -1 else 1, if yRev then -1 else 1, if zRev then -1 else 1);
    }

    method SetOffsets(xOffset: real, yOffset: real, zOffset: real)
      requires Valid()
      modifies this`offsets
      ensures Valid()
      ensures offsets == Xyz(xOffset, yOffset, zOffset)
    {
      offsets := Xyz(xOffset, yOffset, zOffset);
    }

    method SetGains(xGain: real, yGain: real, zGain: real)
      requires Valid()
      modifies this`gains
      ensures Valid()
      ensures gains == Xyz(xGain, yGain, zGain)
    {
      gains := Xyz(xGain, yGain, zGain);
    }

    /** True exactly while continuous reading, requested from the transport, has not been stopped. */
    function IsRunning(): (running: bool)
      requires Valid()
      reads this
      ensures running <==> StreamingRequested(commands)
    {
      isReading
    }

    /** Calibrated x reading in degrees per second. */
    function X(): (deg: real)
      reads this
      ensures polarities.x == 1 && gains.x == 1.0 && offsets.x == 0.0 ==> deg == x as real / SENSITIVITY
    {
      IdentityCalibration(x);
      Calibrated(x, polarities.x, gains.x, offsets.x)
    }

    /** Calibrated y reading in degrees per second. */
    function Y(): (deg: real)
      reads this
      ensures polarities.y == 1 && gains.y == 1.0 && offsets.y == 0.0 ==> deg == y as real / SENSITIVITY
    {
      IdentityCalibration(y);
      Calibrated(y, polarities.y, gains.y, offsets.y)
    }

    /** Calibrated z reading in degrees per second. */
    function Z(): (deg: real)
      reads this
      ensures polarities.z == 1 && gains.z == 1.0 && offsets.z == 0.0 ==> deg == z as real / SENSITIVITY
    {
      IdentityCalibration(z);
      Calibrated(z, polarities.z, gains.z, offsets.z)
    }

    /** Starts continuous reading unless it is already running. */
    method StartReading()
      requires Valid()
      modifies this`isReading, this`commands
      ensures Valid() && isReading
      ensures commands == old(commands) + (if old(isReading) then [] else [ReadContinuous(address, GYRO_XOUT, NUM_BYTES)])
    {
      if !isReading {
        isReading := true;
        commands := commands + [ReadContinuous(address, GYRO_XOUT, NUM_BYTES)];
      }
    }

    /** Stops continuous reading; the stop request is sent even when idle. */
    method StopReading()
      requires Valid()
      modifies this`isReading, this`commands
      ensures Valid() && !isReading
      ensures commands == old(commands) + [I2CRequest.StopReading(address)]
    {
      isReading := false;
      commands := commands + [I2CRequest.StopReading(address)];
    }

    /** Requests one reading, first stopping continuous reading if it runs. */
    method Update()
      requires Valid()
      modifies this`isReading, this`commands
      ensures Valid() && !isReading
      ensures commands == old(commands)
                          + (if old(isReading) then [I2CRequest.StopReading(address)] else [])
                          + [Read(address, GYRO_XOUT, NUM_BYTES)]
    {
      if isReading {
        StopReading();
      }
      commands := commands + [Read(address, GYRO_XOUT, NUM_BYTES)];
    }

    /** Sends the configuration writes and starts the startup timer. */
    method Init()
      modifies this`commands, this`timerPending
      ensures timerPending
      ensures commands == old(commands) + InitCommands(address)
    {
      commands := commands + [Write(address, SMPLRT_DIV, 0x00)];
      commands := commands + [Write(address, DLPF_FS, 0x18)];
      commands := commands + [Write(address, PWR_MGM, 0x00)];
      commands := commands + [Write(address, INT_CFG, 0x05)];
      timerPending := true;
    }

    /** The startup timer fires: clear it, dispatch READY, start reading if autoStart is set. */
    method OnGyroReady()
      requires Valid() && timerPending
      modifies this`timerPending, this`events, this`isReading, this`commands
      ensures Valid() && !timerPending
      ensures events == old(events) + [GyroReady]
      ensures Count(events, GyroReady) == 1
      ensures isReading == (old(isReading) || autoStart)
      ensures commands == old(commands)
                          + (if autoStart && !old(isReading) then [ReadContinuous(address, GYRO_XOUT, NUM_BYTES)] else [])
    {
      timerPending := false;
      CountAppend(events, GyroReady, GyroReady);
      events := events + [GyroReady];
      if autoStart {
        StartReading();
      }
    }

    /** Dispatches a reply frame on its register byte; only GYRO_XOUT frames are decoded. */
    method HandleI2C(data: seq<Byte>) returns (r: Outcome<FrameError>)
      requires Valid()
      modifies this`x, this`y, this`z, this`events
      ensures Valid()
      ensures !(|data| > 0 && data[0] == GYRO_XOUT) ==>
                r == Pass && x == old(x) && y == old(y) && z == old(z) && events == old(events)
      ensures |data| > 0 && data[0] == GYRO_XOUT ==> Decoded(data, r)
    {
      if |data| > 0 && data[0] == GYRO_XOUT {
        r := ReadGyro(data);
      } else {
        // unexpected register: only a debug message, which is not modelled
        r := Pass;
      }
    }

    /** The effect of ReadGyro on `data`, relating the new state to the old one. */
    twostate predicate Decoded(data: seq<Byte>, new r: Outcome<FrameError>)
      reads this
    {
      match DecodeFrame(data)
      case Success(v) =>
        r == Pass && Xyz(x, y, z) == v && events == old(events) + [GyroEvent.Update]
      case Failure(e) =>
        r == Fail(e) && x == old(x) && y == old(y) && z == old(z) && events == old(events)
    }

    /** Decodes a reply frame into x, y, z and dispatches UPDATE; a frame of the wrong length fails and changes nothing. */
    method ReadGyro(data: seq<Byte>) returns (r: Outcome<FrameError>)
      requires Valid()
      modifies this`x, this`y, this`z, this`events
      ensures Valid()
      ensures r.Pass? <==> |data| == FRAME_LENGTH
      ensures Decoded(data, r)
    {
      if |data| != FRAME_LENGTH {
        return Fail(WrongLength(|data|));
      }
      x := Decode16(data[1], data[2]);
      y := Decode16(data[3], data[4]);
      z := Decode16(data[5], data[6]);
      CountAppend(events, GyroReady, GyroEvent.Update);
      events := events + [GyroEvent.Update];
      r := Pass;
    }
  }
}
