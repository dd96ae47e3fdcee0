/** PWM output and the servo driver: firmware/esp32/src/servo_driver.cpp and pca9685_driver.cpp. */
module Servos {
  import opened Prelude
  import opened ServoSafety

  const MAX_STEPS: nat := 4095
  const STEPS_PER_US := 0.2048

  /** One register transaction: `setPWM(channel, on, off)`. */
  datatype Pwm = Pwm(channel: nat, on: nat, off: nat)

  const OUTPUTS: nat := 16

  /** The first `n` of the sixteen writes that silence the outputs. */
  function Cleared(n: nat): (writes: seq<Pwm>)
    ensures |writes| == n
    ensures forall ch | 0 <= ch < n :: writes[ch] == Pwm(ch, 0, 0)
  {
    if n == 0 then [] else Cleared(n - 1) + [Pwm(n - 1, 0, 0)]
  }

  /** The I2C driver. What it sent over the bus is kept in `sent`. */
  class PCA9685Driver {
    ghost var sent: seq<Pwm>

    constructor ()
      ensures sent == []
    {
      sent := [];
    }

    /** Clears every output: the device keeps its registers across resets of the board. */
    method Begin()
      modifies this
      ensures sent == old(sent) + Cleared(OUTPUTS)
    {
      for ch := 0 to OUTPUTS
        invariant sent == old(sent) + Cleared(ch)
      {
        SetPWM(ch, 0, 0);
      }
    }

    /** Channels beyond 15 are ignored and both counts saturate at 12 bits. */
    method SetPWM(channel: nat, on: nat, off: nat)
      modifies this
      ensures sent == old(sent) +
                      if channel < OUTPUTS then [Pwm(channel, Min(on, MAX_STEPS), Min(off, MAX_STEPS))] else []
    {
      if channel >= OUTPUTS { return; }
      sent := sent + [Pwm(channel, Min(on, MAX_STEPS), Min(off, MAX_STEPS))];
    }
  }

  // ----- Conversion -----

  function RadToPulse(ch: Channel, rad: real): real
  {
    var e := Limits(ch);
    var range := e.maxRad - e.minRad;
    if range <= 0.0 then e.minPulse
    else e.minPulse + (rad - e.minRad) / range * (e.maxPulse - e.minPulse)
  }

  /** Rounded to the nearest step and saturated to 0..4095. */
  function PulseToSteps(pulse: real): (steps: nat)
    ensures steps <= MAX_STEPS
  {
    var raw := pulse * STEPS_PER_US + 0.5;
    if raw < 0.0 then 0
    else if raw > MAX_STEPS as real then MAX_STEPS
    else raw.Floor
  }

  function Steps(ch: Channel, rad: real): nat { PulseToSteps(RadToPulse(ch, rad)) }

  /** How the driver is wired: is there a driver, a PCA9685 behind it, and is it enabled. */
  datatype Drive = Drive(present: bool, wired: bool, enabled: bool)
  {
    predicate Ready() { present && wired && enabled }
  }

  predicate Accepted(d: Drive, joints: seq<real>)
  {
    |joints| >= CHANNELS && InEnvelope(joints) && d.wired && d.enabled
  }

  /** The four register writes of one accepted waypoint. */
  function Burst(joints: seq<real>): seq<Pwm>
    requires |joints| >= CHANNELS
  {
    [Pwm(Output(0), 0, Steps(0, joints[0])), Pwm(Output(1), 0, Steps(1, joints[1])),
     Pwm(Output(2), 0, Steps(2, joints[2])), Pwm(Output(3), 0, Steps(3, joints[3]))]
  }

  /** The transaction commands an angle: on the output of its channel, at no delay, with the step count nearest to the
      calibrated line through the ends of the joint. */
  predicate Commands(p: Pwm, ch: Channel, rad: real)
  {
    var e := Limits(ch);
    && p.channel == Output(ch) && p.on == 0
    && AbsReal(p.off as real
               - (e.minPulse + (rad - e.minRad) / (e.maxRad - e.minRad) * (e.maxPulse - e.minPulse)) * STEPS_PER_US) <= 0.5
  }

  /** One transaction for each channel, which commands its joint. */
  predicate CommandsPose(burst: seq<Pwm>, joints: seq<real>)
  {
    |burst| == CHANNELS <= |joints| && forall ch: Channel :: Commands(burst[ch], ch, joints[ch])
  }

  lemma StepsCommand(ch: Channel, rad: real)
    requires WithinLimits(ch, rad)
    ensures Commands(Pwm(Output(ch), 0, Steps(ch, rad)), ch, rad)
  {
    StepsInRange(ch, rad);
    StepsAreNearest(RadToPulse(ch, rad));
  }

  lemma BurstCommandsPose(joints: seq<real>)
    requires |joints| >= CHANNELS && InEnvelope(joints)
    ensures CommandsPose(Burst(joints), joints)
  {
    forall ch: Channel ensures Commands(Burst(joints)[ch], ch, joints[ch]) {
      assert WithinLimits(ch, joints[ch]);
      StepsCommand(ch, joints[ch]);
    }
  }

  /** The last transaction on an output. */
  function LastOn(sent: seq<Pwm>, output: nat): Option<Pwm>
  {
    if sent == [] then None
    else if sent[|sent| - 1].channel == output then Some(sent[|sent| - 1])
    else LastOn(sent[..|sent| - 1], output)
  }

  /** What each output was last sent commands the joint of its channel. */
  predicate ArmAt(sent: seq<Pwm>, joints: seq<real>)
  {
    && |joints| >= CHANNELS
    && forall ch: Channel :: LastOn(sent, Output(ch)).Some? && Commands(LastOn(sent, Output(ch)).value, ch, joints[ch])
  }

  lemma {:induction false} LastOnLonger(sent: seq<Pwm>, burst: seq<Pwm>, k: nat, output: nat)
    requires k < |burst| && burst[k].channel == output && forall i | k < i < |burst| :: burst[i].channel != output
    ensures LastOn(sent + burst, output) == Some(burst[k])
  {
    var n := |burst| - 1;
    assert (sent + burst)[|sent + burst| - 1] == burst[n] && (sent + burst)[..|sent + burst| - 1] == sent + burst[..n];
    if k < n { LastOnLonger(sent, burst[..n], k, output); }
  }

  /** A pose that was sent is where the outputs command the arm to be. */
  lemma PoseMovesArm(sent: seq<Pwm>, burst: seq<Pwm>, joints: seq<real>)
    requires CommandsPose(burst, joints)
    ensures ArmAt(sent + burst, joints)
  {
    forall ch: Channel ensures LastOn(sent + burst, Output(ch)) == Some(burst[ch]) {
      forall i: Channel | i > ch ensures burst[i].channel != Output(ch) { assert Commands(burst[i], i, joints[i]); }
      assert Commands(burst[ch], ch, joints[ch]);
      LastOnLonger(sent, burst, ch, Output(ch));
    }
  }

  class ServoDriver {
    var pca: PCA9685Driver?
    var enabled: bool

    constructor ()
      ensures pca == null && !enabled
    {
      pca, enabled := null, false;
    }

    function State(): Drive
      reads this
    {
      Drive(true, pca != null, enabled)
    }

    ghost function Sent(): seq<Pwm>
      reads this, pca
    {
      if pca == null then [] else pca.sent
    }

    method Init(device: PCA9685Driver)
      modifies this
      ensures pca == device && enabled
    {
      pca, enabled := device, true;
    }

    method SetEnabled(value: bool)
      modifies this
      ensures enabled == value && pca == old(pca)
    {
      enabled := value;
    }

    /** All or nothing: a rejected waypoint reaches no channel. */
    method Write(joints: seq<real>) returns (ok: bool)
      modifies pca
      ensures ok <==> Accepted(State(), joints)
      ensures Sent() == old(Sent()) + if ok then Burst(joints) else []
      ensures ok ==> CommandsPose(Sent()[|old(Sent())|..], joints) && ArmAt(Sent(), joints)
    {
      if |joints| < CHANNELS { return false; }
      for i := 0 to CHANNELS
        invariant forall ch: Channel | ch < i :: WithinLimits(ch, joints[ch])
      {
        var limits := Limits(i);
        if joints[i] < limits.minRad || joints[i] > limits.maxRad {
          assert !WithinLimits(i, joints[i]);
          return false;
        }
      }
      if pca == null || !enabled { return false; }
      for ch := 0 to CHANNELS
        invariant pca == old(pca) && pca != null
        invariant Sent() == old(Sent()) + Burst(joints)[..ch]
      {
        var pulse := RadToPulse(ch, joints[ch]);
        var steps := PulseToSteps(pulse);
        assert Burst(joints)[..ch + 1] == Burst(joints)[..ch] + [Pwm(Output(ch), 0, steps)];
        pca.SetPWM(Output(ch), 0, steps);
      }
      assert Burst(joints)[..CHANNELS] == Burst(joints);
      BurstCommandsPose(joints);
      PoseMovesArm(old(Sent()), Burst(joints), joints);
      assert Sent()[|old(Sent())|..] == Burst(joints);
      return true;
    }
  }

  // ----- What a burst may contain -----

  /** The safe step range of a channel: the steps of its shortest and longest pulse. */
  predicate SafeSteps(ch: Channel, steps: nat)
  {
    PulseToSteps(Limits(ch).minPulse) <= steps <= PulseToSteps(Limits(ch).maxPulse)
  }

  predicate SafePwm(p: Pwm)
  {
    p.on == 0 && exists ch: Channel :: p.channel == Output(ch) && SafeSteps(ch, p.off)
  }

  /** All that is ever sent to the device: the clearing writes, and then only safe pulses. */
  ghost predicate BusIsSafe(sent: seq<Pwm>)
  {
    && |sent| >= OUTPUTS && sent[..OUTPUTS] == Cleared(OUTPUTS)
    && forall i | OUTPUTS <= i < |sent| :: SafePwm(sent[i])
  }

  lemma BusStaysSafe(sent: seq<Pwm>, burst: seq<Pwm>)
    requires BusIsSafe(sent) && forall p | p in burst :: SafePwm(p)
    ensures BusIsSafe(sent + burst)
  {
    assert (sent + burst)[..OUTPUTS] == sent[..OUTPUTS];
  }

  lemma StepsInRange(ch: Channel, rad: real)
    requires WithinLimits(ch, rad)
    ensures Limits(ch).minPulse <= RadToPulse(ch, rad) <= Limits(ch).maxPulse
    ensures SafeSteps(ch, Steps(ch, rad))
  {
  }

  /** The map from angle to pulse meets the calibration at both ends of the joint and rises between. */
  lemma PulseFollowsAngle(ch: Channel, a: real, b: real)
    requires a < b
    ensures RadToPulse(ch, Limits(ch).minRad) == Limits(ch).minPulse
    ensures RadToPulse(ch, Limits(ch).maxRad) == Limits(ch).maxPulse
    ensures RadToPulse(ch, a) < RadToPulse(ch, b) && Steps(ch, a) <= Steps(ch, b)
  {
  }

  /** Between the ends of the 12-bit range the step count is the nearest. */
  lemma StepsAreNearest(pulse: real)
    requires 0.0 <= pulse * STEPS_PER_US <= MAX_STEPS as real
    ensures AbsReal(PulseToSteps(pulse) as real - pulse * STEPS_PER_US) <= 0.5
  {
  }

  /** Every register write of an accepted waypoint commands a pulse inside its channel's range. */
  lemma BurstIsSafe(joints: seq<real>)
    requires |joints| >= CHANNELS && InEnvelope(joints)
    ensures forall p | p in Burst(joints) :: SafePwm(p)
  {
  }
}
