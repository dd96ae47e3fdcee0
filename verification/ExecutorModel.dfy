/** The waypoint stepper as a function on values: firmware/esp32/src/executor.cpp. */
module ExecutorModel {
  import opened Prelude
  import opened Words
  import opened Manifests
  import opened ServoSafety
  import opened Servos

  const MAX_ADVANCE_ELAPSED: u32 := 3_600_000_000

  datatype Mode = Idle | Running | Done

  datatype Sample = Sample(timestamp: u32, joints: seq<real>)

  /** The executor's fields. `slots` is the fixed trace buffer, whose length is its capacity,
      and `next` the number of valid samples in it. */
  datatype Exec = Exec(
    loaded: bool, mode: Mode,
    index: nat, target: u32, start: u32, lastWrite: u32,
    slots: seq<Sample>, next: nat,
    position: seq<real>,
    repeatTotal: nat, passesDone: nat, timeBase: u32, passDuration: u32)

  /** The joints a waypoint actuates. */
  function Actuated(joints: seq<real>): seq<real>
  {
    joints[..Min(|joints|, CHANNELS)]
  }

  /** Where a pass begins: at its first waypoint. */
  function Home(ws: seq<Waypoint>): seq<real>
  {
    if ws == [] then [] else Actuated(ws[0].joints)
  }

  /** A buffer of `n` slots that keeps what fits of the old contents. */
  function Resized(slots: seq<Sample>, n: nat): (r: seq<Sample>)
    ensures |r| == n
  {
    if n <= |slots| then slots[..n] else slots + seq(n - |slots|, i => Sample(0, []))
  }

  function Load(e: Exec, m: Plan): Exec
  {
    e.(loaded := true, mode := Idle, index := 0,
       slots := Resized(e.slots, |m.samples|), next := 0,
       passDuration := PassLength(m.samples) % WORD,
       repeatTotal := m.meta.repeatCount, passesDone := 0, timeBase := 0)
  }

  /** The reset at the start of every pass. */
  function BeginPass(e: Exec, ws: seq<Waypoint>, start: u32, lastWrite: u32): Exec
  {
    e.(index := 0, target := 0, start := start, lastWrite := lastWrite, next := 0, position := Home(ws))
  }

  /** `t0` and `t1` are the two clock readings the function takes. */
  function Start(e: Exec, ws: seq<Waypoint>, t0: u32, t1: u32): Exec
  {
    if !e.loaded then e
    else BeginPass(e, ws, t0, t1).(mode := Running, passesDone := 0, timeBase := 0)
  }

  function Stop(e: Exec): Exec { e.(mode := Idle) }

  function ClearSamples(e: Exec): Exec { e.(slots := [], next := 0) }

  // ----- One update -----

  function Record(e: Exec, timestamp: u32, joints: seq<real>): Exec
  {
    if e.next >= |e.slots| then e
    else e.(slots := e.slots[e.next := Sample(timestamp, joints)], next := e.next + 1)
  }

  /** Consumes the waypoint at the current index. */
  function ConsumeOne(e: Exec, ws: seq<Waypoint>): Exec
    requires e.index < |ws|
  {
    var r := Record(e, Add32(e.timeBase, e.target), ws[e.index].joints);
    r.(index := e.index + 1,
       target := if e.index + 1 < |ws| then Add32(e.target, ws[e.index + 1].dt) else e.target)
  }

  predicate Due(e: Exec, ws: seq<Waypoint>, since: u32)
  {
    e.index < |ws| && e.target <= since
  }

  /** Consumes every waypoint that is due, stopping before a waypoint with dt 0. */
  function Consume(e: Exec, ws: seq<Waypoint>, since: u32): Exec
    decreases |ws| - e.index
  {
    if !Due(e, ws, since) then e
    else
      var r := ConsumeOne(e, ws);
      if r.index < |ws| && ws[r.index].dt == 0 then r else Consume(r, ws, since)
  }

  function Elapsed(e: Exec, now: u32): u32
  {
    var elapsed := Sub32(now, e.lastWrite);
    if elapsed > MAX_ADVANCE_ELAPSED then MAX_ADVANCE_ELAPSED else elapsed
  }

  /** The distance a channel may travel in the given time. */
  function MaxAdvance(ch: Channel, elapsed: nat): real
  {
    Limits(ch).maxVelocity * (elapsed as real) * 0.000001
  }

  function Toward(ch: Channel, from: real, goal: real, elapsed: nat): real
  {
    var delta := goal - from;
    var limit := MaxAdvance(ch, elapsed);
    from + if AbsReal(delta) > limit then (if delta > 0.0 then limit else -limit) else delta
  }

  /** The pose the arm is sent to: each actuated channel a bounded move towards its goal. */
  function Bounded(position: seq<real>, goal: seq<real>, elapsed: nat): (r: seq<real>)
    ensures |r| == |position|
    decreases |position|
  {
    if position == [] then []
    else
      var ch := |position| - 1;
      Bounded(position[..ch], goal, elapsed) +
      [if ch < CHANNELS && ch < |goal| then Toward(ch, position[ch], goal[ch], elapsed) else position[ch]]
  }

  lemma {:induction false} BoundedAt(position: seq<real>, goal: seq<real>, elapsed: nat, ch: nat)
    requires ch < |position|
    ensures Bounded(position, goal, elapsed)[ch] ==
            if ch < CHANNELS && ch < |goal| then Toward(ch, position[ch], goal[ch], elapsed) else position[ch]
    decreases |position|
  {
    if ch < |position| - 1 { BoundedAt(position[..|position| - 1], goal, elapsed, ch); }
  }

  /** The physical write towards the last waypoint consumed, and the pose it sent to the
      servos; a rejected write sends nothing and changes nothing. */
  function Actuate(e: Exec, goal: seq<real>, d: Drive, elapsed: nat, now: u32): (Exec, Option<seq<real>>)
  {
    var bounded := Bounded(e.position, goal, elapsed);
    if d.present && Accepted(d, bounded)
    then (e.(position := bounded, lastWrite := now), Some(bounded))
    else (e, None)
  }

  /** The end of an update: finish a pass and begin the next one, or stop. */
  function EndPass(e: Exec, ws: seq<Waypoint>, now: u32): Exec
  {
    if e.index < |ws| then e
    else if e.passesDone + 1 < e.repeatTotal then
      BeginPass(e, ws, now, now).(passesDone := e.passesDone + 1, timeBase := Add32(e.timeBase, e.passDuration))
    else e.(passesDone := e.passesDone + 1, mode := Done)
  }

  /** The state after consumption and actuation, before the pass is closed. */
  function Acted(e: Exec, ws: seq<Waypoint>, d: Drive, now: u32): (Exec, Option<seq<real>>)
  {
    var c := Consume(e, ws, Sub32(now, e.start));
    if c.index > e.index && c.index <= |ws|
    then Actuate(c, ws[c.index - 1].joints, d, Elapsed(e, now), now)
    else (c, None)
  }

  lemma ActedOn(e: Exec, ws: seq<Waypoint>, d: Drive, now: u32, since: u32, c: Exec, goal: seq<real>, elapsed: u32)
    requires since == Sub32(now, e.start) && c == Consume(e, ws, since) && elapsed == Elapsed(e, now)
    requires e.index < c.index <= |ws| && goal == ws[c.index - 1].joints
    ensures Acted(e, ws, d, now) == Actuate(c, goal, d, elapsed, now)
  {
  }

  lemma ActedNot(e: Exec, ws: seq<Waypoint>, d: Drive, now: u32, since: u32, c: Exec)
    requires since == Sub32(now, e.start) && c == Consume(e, ws, since) && c.index == e.index
    ensures Acted(e, ws, d, now) == (c, None)
  {
  }

  function StepTo(e: Exec, ws: seq<Waypoint>, d: Drive, now: u32): (Exec, Option<seq<real>>)
  {
    var (a, written) := Acted(e, ws, d, now);
    (EndPass(a, ws, now), written)
  }

  function Update(e: Exec, ws: seq<Waypoint>, d: Drive, now: u32): (Exec, Option<seq<real>>)
  {
    if e.mode != Running then (e, None) else StepTo(e, ws, d, now)
  }

  // ----- Queries -----

  function Progress(e: Exec, ws: seq<Waypoint>): real
    requires e.repeatTotal > 0
  {
    if !e.loaded || ws == [] then 0.0
    else if e.index >= |ws| then e.passesDone as real / e.repeatTotal as real
    else (e.passesDone as real + e.index as real / |ws| as real) / e.repeatTotal as real
  }

  function CurrentJoints(e: Exec, ws: seq<Waypoint>): seq<real>
  {
    if e.mode != Running || !e.loaded || e.index >= |ws| then [] else ws[e.index].joints
  }

  // ----- Shape of a running executor -----

  /** What a running executor relies on: a waypoint to go to, and a position with one entry
      for every joint that a waypoint actuates. */
  predicate Steppable(e: Exec, ws: seq<Waypoint>)
  {
    && e.loaded
    && e.next <= |e.slots|
    && e.index < |ws|
    && e.passesDone < e.repeatTotal
    && (forall i | 0 <= i < |ws| :: |Actuated(ws[i].joints)| == |e.position|)
  }

  /** Consumption touches the trace, the index and the target only, and moves forward. */
  lemma {:induction false} ConsumeShape(e: Exec, ws: seq<Waypoint>, since: u32)
    requires e.index <= |ws| && e.next <= |e.slots|
    ensures var c := Consume(e, ws, since);
            && e.index <= c.index <= |ws|
            && (Due(e, ws, since) <==> c.index > e.index)
            && c == e.(index := c.index, target := c.target, slots := c.slots, next := c.next)
            && e.next <= c.next <= |c.slots| == |e.slots|
    decreases |ws| - e.index
  {
    if Due(e, ws, since) {
      ConsumeShape(ConsumeOne(e, ws), ws, since);
    }
  }

  lemma UpdateKeepsShape(e: Exec, ws: seq<Waypoint>, d: Drive, now: u32)
    requires e.mode == Running ==> Steppable(e, ws)
    ensures var u := Update(e, ws, d, now).0;
            u.mode == Running ==> Steppable(u, ws)
  {
    if e.mode == Running { ConsumeShape(e, ws, Sub32(now, e.start)); }
  }
}
