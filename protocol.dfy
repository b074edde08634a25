/**
  The ITG-3200 register map, the requests the driver hands to its I2C transport,
  and the events it dispatches to its listeners.
*/
module Protocol {

  // Registers of the ITG-3200.
  const SMPLRT_DIV := 0x15
  const DLPF_FS := 0x16
  const INT_CFG := 0x17
  const GYRO_XOUT := 0x1D
  const GYRO_YOUT := 0x1F
  const GYRO_ZOUT := 0x21
  const PWR_MGM := 0x3E

  /** Data bytes in the X, Y, Z output block that starts at GYRO_XOUT. */
  const NUM_BYTES := 6

  /** I2C address when pin 9 (AD0) is tied to power; the default. */
  const ID_AD0_VDD := 0x69
  /** I2C address when pin 9 (AD0) is tied to ground. */
  const ID_AD0_GND := 0x68

  /** Delay before the sensor is considered ready; time is not modelled. */
  const STARTUP_DELAY := 70

  /** One value per axis. */
  datatype Xyz<T> = Xyz(x: T, y: T, z: T)

  /** A request to the I2C transport, one per `sendI2CRequest` call. */
  datatype I2CRequest =
    | Write(address: int, register: int, value: int)
    | Read(address: int, register: int, length: int)
    | ReadContinuous(address: int, register: int, length: int)
    | StopReading(address: int)

  datatype GyroEvent = GyroReady | Update

  /**
    Whether continuous reading is in effect after the transport has received
    `requests`: the last READ_CONTINUOUS or STOP_READING among them, if any,
    is a READ_CONTINUOUS.
  */
  function StreamingRequested(requests: seq<I2CRequest>): (on: bool)
  {
    if requests == [] then false
    else if requests[|requests| - 1].ReadContinuous? then true
    else if requests[|requests| - 1].StopReading? then false
    else StreamingRequested(requests[..|requests| - 1])
  }

  /** Register writes neither start nor stop continuous reading. */
  lemma {:induction false} WritesDoNotStream(requests: seq<I2CRequest>)
    requires forall i :: 0 <= i < |requests| ==> requests[i].Write?
    ensures !StreamingRequested(requests)
    decreases |requests|
  {
    if requests != [] {
      WritesDoNotStream(requests[..|requests| - 1]);
    }
  }

  /** Number of occurrences of `e` in the event log. */
  function Count(events: seq<GyroEvent>, e: GyroEvent): (n: nat)
  {
    if events == [] then 0
    else (if events[0] == e then 1 else 0) + Count(events[1..], e)
  }

  lemma {:induction false} CountAppend(events: seq<GyroEvent>, e: GyroEvent, d: GyroEvent)
    ensures Count(events + [d], e) == Count(events, e) + (if d == e then 1 else 0)
    decreases |events|
  {
    if events == [] {
      assert Count([d], e) == (if d == e then 1 else 0) + Count([], e);
    } else {
      assert (events + [d])[1..] == events[1..] + [d];
      CountAppend(events[1..], e, d);
    }
  }
}
