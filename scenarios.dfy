/** Client-side sequences of driver calls and what the transport and listeners see. */
module Scenarios {
  import opened Wrappers
  import opened Protocol
  import opened FrameDecoder
  import opened ITG3200

  /** Construction sends the four writes; once the timer fires, READY is dispatched once and reading starts iff autoStart. */
  method Startup(autoStart: Option<bool>, address: Option<int>)
    returns (atConstruction: seq<I2CRequest>, afterReady: seq<I2CRequest>, dispatched: seq<GyroEvent>, running: bool)
    ensures atConstruction == InitCommands(ResolveAddress(address))
    ensures afterReady == if ResolveAutoStart(autoStart)
                          then [ReadContinuous(ResolveAddress(address), GYRO_XOUT, NUM_BYTES)] else []
    ensures dispatched == [GyroReady]
    ensures running == ResolveAutoStart(autoStart)
  {
    var gyro := new GyroITG3200(autoStart, address);
    atConstruction := gyro.commands;
    gyro.OnGyroReady();
    afterReady := gyro.commands[|atConstruction|..];
    dispatched := gyro.events;
    running := gyro.IsRunning();
  }

  /** Two starts send one READ_CONTINUOUS; a following update stops the stream and reads once. */
  method StartTwiceThenUpdate(address: Option<int>) returns (sent: seq<I2CRequest>, running: bool)
    ensures sent == [ ReadContinuous(ResolveAddress(address), GYRO_XOUT, NUM_BYTES),
                      I2CRequest.StopReading(ResolveAddress(address)),
                      Read(ResolveAddress(address), GYRO_XOUT, NUM_BYTES) ]
    ensures !running
  {
    var gyro := new GyroITG3200(Some(false), address);
    gyro.StartReading();
    gyro.StartReading();
    gyro.Update();
    sent := gyro.commands[4..];
    running := gyro.IsRunning();
  }

  /** A five-byte GYRO_XOUT frame fails and leaves the raw values and the event log as they were. */
  method ShortFrameRejected(frame: seq<Byte>) returns (r: Outcome<FrameError>, raw: Xyz<int>, dispatched: seq<GyroEvent>)
    requires |frame| == 5 && frame[0] == GYRO_XOUT
    ensures r == Fail(WrongLength(5))
    ensures raw == Xyz(0, 0, 0) && dispatched == []
  {
    var gyro := new GyroITG3200(None, None);
    r := gyro.HandleI2C(frame);
    raw := Xyz(gyro.x, gyro.y, gyro.z);
    dispatched := gyro.events;
  }
}
