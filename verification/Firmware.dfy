/** The firmware's global objects and its loop: firmware/esp32/src/main.cpp. */
module FirmwareMain {
  import opened Prelude
  import opened Words
  import opened Manifests
  import opened Servos
  import opened ExecutorModel
  import opened Executors
  import opened ProtocolModel
  import opened Wire
  import opened Protocols
  import opened FirmwareModel

  class Firmware {
    const executor: Executor
    const protocol: Protocol
    const servo: ServoDriver

    ghost predicate Linked()
      reads this, protocol, executor
    {
      protocol.executor == executor && executor.servo == servo && protocol.Valid()
    }

    ghost predicate Valid()
      reads this, protocol, protocol.manifest, executor, executor.recorded, servo, servo.pca
    {
      Linked() && Inv(protocol.View()) && (servo.pca != null ==> BusIsSafe(servo.pca.sent))
    }

    /** The global objects, before start-up. */
    constructor ()
      ensures protocol.executor == executor && executor.servo == null && servo.pca == null && protocol.Valid()
      ensures Fresh(protocol.View()) && Inv(protocol.View())
      ensures fresh(executor) && fresh(protocol) && fresh(protocol.manifest) && fresh(servo) && fresh(executor.recorded)
    {
      var device := new Executor();
      executor := device;
      protocol := new Protocol(device);
      servo := new ServoDriver();
      new;
      FreshIsInv(protocol.View());
    }

    /** Start-up: if the PCA9685 answers the bus probe, its outputs are cleared and the servo driver is wired
        to it and enabled. */
    method Setup(answered: bool)
      requires protocol.executor == executor && executor.servo == null && servo.pca == null && protocol.Valid()
      requires Inv(protocol.View())
      modifies executor`servo, servo
      ensures Valid() && protocol.View() == old(protocol.View())
      ensures executor.Sent() == if answered then Cleared(OUTPUTS) else []
      ensures executor.Wiring().Ready() <==> answered
      ensures servo.pca == null || fresh(servo.pca)
    {
      if answered {
        var pca := new PCA9685Driver();
        pca.Begin();
        servo.Init(pca);
        servo.SetEnabled(true);
      } else {
        servo.SetEnabled(false);
      }
      executor.SetServoDriver(servo);
    }

    /** One turn of the loop. It keeps all sent to the arm safe since the outputs were cleared, and the
        shared-manifest invariant is back in place when it ends. */
    method Loop(tick: Tick) returns (replies: seq<Reply>)
      requires Valid()
      modifies protocol, protocol.manifest, executor, executor.recorded, servo.pca
      ensures Valid() && (executor.recorded == old(executor.recorded) || fresh(executor.recorded))
      ensures replies == Poll(old(protocol.View()), tick.command, tick.t0, tick.t1).1
      ensures protocol.View() == LoopStep(old(protocol.View()), old(executor.Wiring()), tick).0
      ensures executor.Sent() == old(executor.Sent()) + Pulses(LoopStep(old(protocol.View()), old(executor.Wiring()), tick).1)
      ensures var written := LoopStep(old(protocol.View()), old(executor.Wiring()), tick).1;
              written.Some? ==> ArmAt(executor.Sent(), written.value)
    {
      TurnIsSound(protocol.View(), executor.Wiring(), tick);
      replies := protocol.PollLine(tick.command, tick.t0, tick.t1);
      UpdateArm(tick.now);
    }

    /** The executor's share of a turn. */
    method UpdateArm(now: u32)
      requires Linked() && (executor.mode == Running ==> Steppable(executor.View(), protocol.manifest.samples))
      requires executor.manifest == null || executor.manifest == protocol.manifest
      requires servo.pca != null ==> BusIsSafe(servo.pca.sent)
      requires forall p | p in Pulses(Stepped(protocol.View(), executor.Wiring(), now).1) :: SafePwm(p)
      modifies executor, executor.recorded, servo.pca
      ensures Linked() && executor.recorded == old(executor.recorded)
      ensures servo.pca != null ==> BusIsSafe(servo.pca.sent)
      ensures protocol.View() == Stepped(old(protocol.View()), old(executor.Wiring()), now).0
      ensures executor.Sent() == old(executor.Sent()) + Pulses(Stepped(old(protocol.View()), old(executor.Wiring()), now).1)
      ensures var written := Stepped(old(protocol.View()), old(executor.Wiring()), now).1;
              written.Some? ==> ArmAt(executor.Sent(), written.value)
    {
      ghost var sent, pulses := executor.Sent(), Pulses(Stepped(protocol.View(), executor.Wiring(), now).1);
      executor.UpdateAt(now);
      if servo.pca != null { BusStaysSafe(sent, pulses); }
    }
  }
}
