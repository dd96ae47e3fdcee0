/** The physical limits of the arm: firmware/esp32/src/servo_safety.h and servo_hw_config.h. */
module ServoSafety {
  import opened Prelude

  const CHANNELS: nat := 4

  type Channel = x: int | 0 <= x < 4

  datatype Envelope = Envelope(minRad: real, maxRad: real, minPulse: real, maxPulse: real, maxVelocity: real)

  /** SAFETY_ENVELOPE together with the calibration map: the two tables hold the same joint limits. */
  function Limits(ch: Channel): Envelope
  {
    match ch
    case 0 => Envelope(-1.5708, 1.5708, 350.0, 2150.0, 1.0)
    case 1 => Envelope(-2.0944, 2.0944, 375.0, 2175.0, 1.0)
    case 2 => Envelope(-3.1416, 3.1416, 1450.0, 1525.0, 2.0)
    case _ => Envelope(0.0, 0.06, 1500.0, 1550.0, 0.5)
  }

  /** SERVO_CHANNELS: the PCA9685 output wired to each joint. */
  function Output(ch: Channel): nat
  {
    match ch case 0 => 15 case 1 => 14 case 2 => 12 case _ => 11
  }

  predicate WithinLimits(ch: Channel, rad: real)
  {
    Limits(ch).minRad <= rad <= Limits(ch).maxRad
  }

  /** Every actuated joint of the waypoint is inside the envelope; joints beyond the
      hardware channels are not looked at. */
  predicate InEnvelope(joints: seq<real>)
  {
    forall ch: Channel | ch < |joints| :: WithinLimits(ch, joints[ch])
  }
}
