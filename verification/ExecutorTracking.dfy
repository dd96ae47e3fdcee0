/** How far the arm can lag behind the planned trajectory. */
module ExecutorTracking {
  import opened Prelude
  import opened Words
  import opened Manifests
  import opened ServoSafety
  import opened Servos
  import opened ExecutorModel
  import opened ExecutorScheduling
  import opened ExecutorMotion

  // ----- The planned motion -----

  predicate FullyPosed(w: Waypoint) { |w.joints| >= CHANNELS && InEnvelope(w.joints) }

  /** Top speed is enough to get from waypoint i - 1 to waypoint i in the time given. */
  predicate SlowGap(ws: seq<Waypoint>, i: nat)
    requires 1 <= i < |ws| && FullyPosed(ws[i - 1]) && FullyPosed(ws[i])
  {
    forall ch: Channel :: AbsReal(ws[i].joints[ch] - ws[i - 1].joints[ch]) <= MaxAdvance(ch, ws[i].dt)
  }

  /** Between neighbouring waypoints no channel is asked to exceed its top speed. */
  predicate Followable(ws: seq<Waypoint>)
  {
    && (forall i | 0 <= i < |ws| :: FullyPosed(ws[i]))
    && (forall i | 1 <= i < |ws| :: FullyPosed(ws[i - 1]) && SlowGap(ws, i))
    && PassLength(ws) < WORD
  }

  /** Speed limits between neighbours add up over any stretch of the plan. */
  lemma {:induction false} PlanSpeed(ws: seq<Waypoint>, ch: Channel, i: nat, j: nat)
    requires Followable(ws) && i <= j < |ws|
    ensures Offset(ws, i) <= Offset(ws, j)
    ensures AbsReal(ws[j].joints[ch] - ws[i].joints[ch]) <= MaxAdvance(ch, Offset(ws, j) - Offset(ws, i))
  {
    if i == j {
      AdvanceMonotone(ch, 0, 0);
    } else {
      PlanSpeed(ws, ch, i, j - 1);
      assert SlowGap(ws, j);
      AdvanceAdds(ch, Offset(ws, j - 1) - Offset(ws, i), ws[j].dt);
    }
  }

  // ----- Lateness and error -----

  /** The waypoint the arm was last sent to: the last one consumed in this pass, or the first. */
  function Reached(e: Exec): nat { if e.index == 0 then 0 else e.index - 1 }

  /** How late the last write came after the planned time of the waypoint it was for. */
  function Lateness(e: Exec, ws: seq<Waypoint>): int
    requires Reached(e) < |ws|
  {
    e.lastWrite - e.start - Offset(ws, Reached(e))
  }

  /** Each joint is within `slack` microseconds of top-speed travel of the waypoint last consumed. */
  predicate Near(position: seq<real>, goal: seq<real>, slack: nat)
    requires |position| == CHANNELS <= |goal|
  {
    forall ch: Channel :: AbsReal(position[ch] - goal[ch]) <= MaxAdvance(ch, slack)
  }

  /** The tracking invariant: with `worst` the greatest lateness of any write of this pass, the
      error after the last write is at most top speed times the lateness that write made up. */
  predicate Tracks(e: Exec, ws: seq<Waypoint>, worst: nat)
  {
    && |e.position| == CHANNELS && Reached(e) < |ws| && |ws[Reached(e)].joints| >= CHANNELS
    && 0 <= Lateness(e, ws) <= worst
    && Near(e.position, ws[Reached(e)].joints, worst - Lateness(e, ws))
    && (e.index < |ws| ==> e.target == Offset(ws, e.index))
  }

  // ----- One update -----

  /** Consumption keeps the target on the plan and only passes waypoints whose time has come. */
  lemma {:induction false} ConsumeOnTime(e: Exec, ws: seq<Waypoint>, since: u32)
    requires Followable(ws) && e.index <= |ws| && e.next <= |e.slots|
    requires e.index < |ws| ==> e.target == Offset(ws, e.index)
    ensures var c := Consume(e, ws, since);
            && e.index <= c.index <= |ws|
            && (c.index < |ws| ==> c.target == Offset(ws, c.index))
            && (c.index > e.index ==> Offset(ws, c.index - 1) <= since)
    decreases |ws| - e.index
  {
    if Due(e, ws, since) {
      if e.index + 1 < |ws| { OffsetMonotone(ws, e.index + 1, |ws| - 1); }
      ConsumeOnTime(ConsumeOne(e, ws), ws, since);
    }
  }

  function Gap(ws: seq<Waypoint>, i: nat, j: nat, slack: nat): int
    requires i < |ws| && j < |ws|
  {
    slack + Offset(ws, j) - Offset(ws, i)
  }

  /** One channel of one write: an arm within `slack` of waypoint i, moved for `elapsed` towards
      waypoint j, ends within what is left of the slack. */
  lemma ChannelError(ws: seq<Waypoint>, ch: Channel, i: nat, j: nat, p: real, slack: nat, elapsed: nat)
    requires Followable(ws) && i <= j < |ws|
    requires AbsReal(p - ws[i].joints[ch]) <= MaxAdvance(ch, slack)
    ensures AbsReal(Toward(ch, p, ws[j].joints[ch], elapsed) - ws[j].joints[ch])
              <= MaxAdvance(ch, Slack(Gap(ws, i, j, slack) - elapsed))
  {
    PlanSpeed(ws, ch, i, j);
    TowardGoal(ch, p, ws[j].joints[ch], elapsed);
    AdvanceMonotone(ch, 0, 0);
    RemainingDistance(ch, AbsReal(ws[j].joints[ch] - p), slack, Offset(ws, j) - Offset(ws, i), elapsed);
  }

  /** A distance of `a + b` microseconds at top speed, less what is travelled in `elapsed`. */
  lemma RemainingDistance(ch: Channel, distance: real, a: nat, b: nat, elapsed: nat)
    requires distance <= MaxAdvance(ch, a) + MaxAdvance(ch, b)
    ensures distance - MaxAdvance(ch, elapsed) <= if a + b <= elapsed then 0.0 else MaxAdvance(ch, a + b - elapsed)
  {
  }

  lemma BoundedNear(ws: seq<Waypoint>, i: nat, j: nat, position: seq<real>, slack: nat, elapsed: nat)
    requires Followable(ws) && i <= j < |ws| && |position| == CHANNELS
    requires Near(position, ws[i].joints, slack)
    ensures Near(Bounded(position, ws[j].joints, elapsed), ws[j].joints, Slack(Gap(ws, i, j, slack) - elapsed))
  {
    forall ch: Channel
      ensures AbsReal(Bounded(position, ws[j].joints, elapsed)[ch] - ws[j].joints[ch])
                <= MaxAdvance(ch, Slack(Gap(ws, i, j, slack) - elapsed))
    {
      BoundedAt(position, ws[j].joints, elapsed, ch);
      ChannelError(ws, ch, i, j, position[ch], slack, elapsed);
    }
  }

  /** The conditions of the bound for one update: a ready driver, a clock that has not wrapped,
      and no more than an hour since the last write. */
  predicate Punctual(e: Exec, d: Drive, now: u32)
  {
    d.Ready() && e.start <= e.lastWrite <= now && now - e.lastWrite <= MAX_ADVANCE_ELAPSED
  }

  function Later(a: int, b: nat): nat { if a > b then a else b }

  function Slack(left: int): nat { if left <= 0 then 0 else left }

  /** The bookkeeping of one write: what is left of the slack is the bound for the new lateness. */
  lemma SlackIsBound(e: Exec, a: Exec, ws: seq<Waypoint>, worst: nat)
    requires Tracks(e, ws, worst) && e.index < a.index <= |ws| && |a.position| == CHANNELS <= |ws[a.index - 1].joints|
    requires a.start == e.start && Lateness(a, ws) >= 0
    requires a.index < |ws| ==> a.target == Offset(ws, a.index)
    requires Near(a.position, ws[a.index - 1].joints,
                  Slack(Gap(ws, Reached(e), a.index - 1, worst - Lateness(e, ws)) - (a.lastWrite - e.lastWrite)))
    ensures Tracks(a, ws, Later(Lateness(a, ws), worst))
  {
  }

  /** The write of one update, on its own: the arm leaves waypoint `Reached(e)` and is sent to the
      waypoint before `c.index`, whose planned time has come. */
  lemma WriteTracks(e: Exec, c: Exec, a: Exec, ws: seq<Waypoint>, now: u32, worst: nat)
    requires Followable(ws) && Tracks(e, ws, worst)
    requires e.index < c.index <= |ws| && c.start == e.start <= e.lastWrite <= now
    requires c.index < |ws| ==> c.target == Offset(ws, c.index)
    requires Offset(ws, c.index - 1) <= now - e.start
    requires a == c.(position := Bounded(e.position, ws[c.index - 1].joints, now - e.lastWrite), lastWrite := now)
    ensures Tracks(a, ws, Later(Lateness(a, ws), worst))
  {
    BoundedNear(ws, Reached(e), c.index - 1, e.position, worst - Lateness(e, ws), now - e.lastWrite);
    assert FullyPosed(ws[c.index - 1]);
    SlackIsBound(e, a, ws, worst);
  }

  /** A due update of a punctual execution ends in a write towards the last waypoint it consumed. */
  lemma PunctualWrite(e: Exec, ws: seq<Waypoint>, d: Drive, now: u32)
    requires Followable(ws) && e.mode == Running && Safe(e, ws) && |e.position| == CHANNELS
    requires Due(e, ws, Sub32(now, e.start)) && Punctual(e, d, now)
    ensures var c := Consume(e, ws, now - e.start);
            && e.index < c.index <= |ws| && c.start == e.start && c.mode == Running && c.passesDone == e.passesDone
            && Acted(e, ws, d, now).0
               == c.(position := Bounded(e.position, ws[c.index - 1].joints, now - e.lastWrite), lastWrite := now)
  {
    ActedIsSafe(e, ws, d, now);
    ActedForm(e, ws, d, now);
  }

  /** After the write of an update the error is again within the bound, for the greatest
      lateness including this write's. */
  lemma ActedTracks(e: Exec, ws: seq<Waypoint>, d: Drive, now: u32, worst: nat)
    requires Followable(ws) && e.mode == Running && Safe(e, ws) && Tracks(e, ws, worst)
    requires Due(e, ws, Sub32(now, e.start)) && Punctual(e, d, now)
    ensures var a := Acted(e, ws, d, now).0;
            && e.index < a.index <= |ws| && a.lastWrite == now
            && a.mode == Running && a.passesDone == e.passesDone
            && Tracks(a, ws, Later(Lateness(a, ws), worst))
  {
    PunctualWrite(e, ws, d, now);
    ConsumeOnTime(e, ws, now - e.start);
    WriteTracks(e, Consume(e, ws, now - e.start), Acted(e, ws, d, now).0, ws, now, worst);
  }

  // ----- Whole executions -----

  /** The greatest lateness of the current pass after one more update; a new pass starts at zero. */
  function WorstAfter(e: Exec, ws: seq<Waypoint>, d: Drive, now: u32, worst: nat): nat
  {
    var a, u := Acted(e, ws, d, now).0, Update(e, ws, d, now).0;
    if u.mode == Running && u.passesDone > e.passesDone then 0
    else if a.index > e.index && Reached(a) < |ws| then Later(Lateness(a, ws), worst)
    else worst
  }

  predicate AllPunctual(e: Exec, ws: seq<Waypoint>, d: Drive, times: seq<u32>)
    decreases |times|
  {
    times != [] && e.mode == Running ==>
      && Punctual(e, d, times[0])
      && AllPunctual(Update(e, ws, d, times[0]).0, ws, d, times[1..])
  }

  function WorstOf(e: Exec, ws: seq<Waypoint>, d: Drive, times: seq<u32>, worst: nat): nat
    decreases |times|
  {
    if times == [] || e.mode != Running then worst
    else WorstOf(Update(e, ws, d, times[0]).0, ws, d, times[1..], WorstAfter(e, ws, d, times[0], worst))
  }

  lemma UpdateTracks(e: Exec, ws: seq<Waypoint>, d: Drive, now: u32, worst: nat)
    requires Followable(ws) && e.mode == Running && Safe(e, ws) && Tracks(e, ws, worst) && Punctual(e, d, now)
    ensures var u := Update(e, ws, d, now).0;
            && Safe(u, ws)
            && Tracks(u, ws, WorstAfter(e, ws, d, now, worst))
  {
    UpdateIsSafe(e, ws, d, now);
    var a := Acted(e, ws, d, now).0;
    if Due(e, ws, Sub32(now, e.start)) {
      ActedTracks(e, ws, d, now, worst);
      EndPassTracks(a, ws, now, Later(Lateness(a, ws), worst));
    } else {
      assert a == e;
    }
  }

  /** A pass begins with no error and no lateness; otherwise closing an update changes neither. */
  lemma EndPassTracks(a: Exec, ws: seq<Waypoint>, now: u32, worst: nat)
    requires Followable(ws) && ws != [] && a.mode == Running && Tracks(a, ws, worst)
    ensures var u := EndPass(a, ws, now);
            Tracks(u, ws, if u.passesDone > a.passesDone && u.mode == Running then 0 else worst)
  {
  }

  /** The tracking bound of a whole execution: whenever it is looked at, each joint is within
      top speed * (worst lateness of this pass - lateness of the last write) of the waypoint
      last consumed. */
  lemma {:induction false} TrackingError(e: Exec, ws: seq<Waypoint>, d: Drive, times: seq<u32>, worst: nat)
    requires Followable(ws) && Safe(e, ws) && Tracks(e, ws, worst) && AllPunctual(e, ws, d, times)
    ensures Tracks(Updates(e, ws, d, times), ws, WorstOf(e, ws, d, times, worst))
    decreases |times|
  {
    if times == [] || e.mode != Running {
      if e.mode != Running { DoneStays(e, ws, d, times); }
    } else {
      UpdateTracks(e, ws, d, times[0], worst);
      TrackingError(Update(e, ws, d, times[0]).0, ws, d, times[1..], WorstAfter(e, ws, d, times[0], worst));
    }
  }

  /** The bound holds from `Start` on, counting the gap between its two clock readings as lateness. */
  lemma StartTracks(e: Exec, ws: seq<Waypoint>, t0: u32, t1: u32)
    requires e.loaded && e.repeatTotal > 0 && Followable(ws) && ws != [] && t0 <= t1
    ensures var s := Start(e, ws, t0, t1);
            Safe(s, ws) && Tracks(s, ws, t1 - t0)
  {
    HomeInEnvelope(ws);
  }
}
