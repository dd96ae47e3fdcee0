/** What an execution does, told by the clock readings it takes: firmware/esp32/src/executor.cpp:63-86 and 169-273. */
module ExecutorClock {
  import opened Prelude
  import opened Words
  import opened Manifests
  import opened ServoSafety
  import opened Servos
  import opened ExecutorModel
  import opened ExecutorScheduling
  import opened ExecutorMotion
  import opened ExecutorTracking

  // ----- The clock fields are readings -----

  /** The update closed a pass and began the next. */
  predicate BeginsPass(e: Exec, u: Exec) { u.mode == Running && u.passesDone > e.passesDone }

  function FromNext(e: Exec, u: Exec, now: u32, from: u32): u32 { if BeginsPass(e, u) then now else from }

  function LastNext(e: Exec, u: Exec, written: Option<seq<real>>, now: u32, last: u32): u32
  {
    if BeginsPass(e, u) || written.Some? then now else last
  }

  /** The reading at which the current pass began, for an execution whose start was read at `from`. */
  function PassReading(e: Exec, ws: seq<Waypoint>, d: Drive, times: seq<u32>, from: u32): u32
    decreases |times|
  {
    if times == [] then from
    else
      var u := Update(e, ws, d, times[0]).0;
      PassReading(u, ws, d, times[1..], FromNext(e, u, times[0], from))
  }

  /** The reading at which the arm was last written to or a pass last began. */
  function WriteReading(e: Exec, ws: seq<Waypoint>, d: Drive, times: seq<u32>, last: u32): u32
    decreases |times|
  {
    if times == [] then last
    else
      var (u, written) := Update(e, ws, d, times[0]);
      WriteReading(u, ws, d, times[1..], LastNext(e, u, written, times[0], last))
  }

  lemma EndPassClocks(a: Exec, ws: seq<Waypoint>, now: u32)
    requires a.mode == Running
    ensures var u := EndPass(a, ws, now);
            && u.start == (if BeginsPass(a, u) then now else a.start)
            && u.lastWrite == (if BeginsPass(a, u) then now else a.lastWrite)
  {
  }

  lemma UpdateClocks(e: Exec, ws: seq<Waypoint>, d: Drive, now: u32)
    requires Active(e, ws) && e.mode == Running
    ensures var (u, written) := Update(e, ws, d, now);
            && u.start == FromNext(e, u, now, e.start)
            && u.lastWrite == LastNext(e, u, written, now, e.lastWrite)
  {
    ActedForm(e, ws, d, now);
    EndPassClocks(Acted(e, ws, d, now).0, ws, now);
  }

  /** The two clock fields of an execution hold readings: those of START, until an update begins a pass or writes. */
  lemma {:induction false} ClocksAreReadings(e: Exec, ws: seq<Waypoint>, d: Drive, times: seq<u32>)
    requires Active(e, ws) && e.mode != Idle
    ensures var u := Updates(e, ws, d, times);
            && u.start == PassReading(e, ws, d, times, e.start)
            && u.lastWrite == WriteReading(e, ws, d, times, e.lastWrite)
    decreases |times|
  {
    if times != [] {
      var u := Update(e, ws, d, times[0]).0;
      if e.mode == Running { UpdateClocks(e, ws, d, times[0]); }
      UpdateKeepsActive(e, ws, d, times[0]);
      ClocksAreReadings(u, ws, d, times[1..]);
    }
  }

  /** A start of a loaded executor takes its two readings, and with them its whole execution. */
  lemma StartReadsTheClock(e: Exec, ws: seq<Waypoint>, d: Drive, t0: u32, t1: u32, times: seq<u32>)
    requires e.loaded && e.repeatTotal > 0 && ws != [] && SameWidth(ws)
    ensures var s := Start(e, ws, t0, t1);
            && s.start == t0 && s.lastWrite == t1
            && Updates(s, ws, d, times).start == PassReading(s, ws, d, times, t0)
            && Updates(s, ws, d, times).lastWrite == WriteReading(s, ws, d, times, t1)
  {
    StartIsActive(e, ws, t0, t1);
    ClocksAreReadings(Start(e, ws, t0, t1), ws, d, times);
  }

  /** Every waypoint actuates as many joints as the first. */
  predicate SameWidth(ws: seq<Waypoint>)
  {
    forall i | 0 <= i < |ws| :: |Actuated(ws[i].joints)| == |Home(ws)|
  }

  lemma StartIsActive(e: Exec, ws: seq<Waypoint>, t0: u32, t1: u32)
    requires e.loaded && e.repeatTotal > 0 && ws != [] && SameWidth(ws)
    ensures var s := Start(e, ws, t0, t1); Active(s, ws) && s.mode == Running && OnPlan(s, ws)
  {
  }

  // ----- What falls due -----

  /** The next waypoint is due at its planned instant. */
  predicate OnPlan(e: Exec, ws: seq<Waypoint>) { e.index < |ws| ==> e.target == Offset(ws, e.index) }

  lemma ConsumeOneOnPlan(e: Exec, ws: seq<Waypoint>)
    requires e.index < |ws| && OnPlan(e, ws) && PassLength(ws) < WORD
    ensures OnPlan(ConsumeOne(e, ws), ws)
  {
    if e.index + 1 < |ws| { OffsetMonotone(ws, e.index + 1, |ws| - 1); }
  }

  /** From the next waypoint on, waypoint `k` is consumed if and only if its planned instant has come and no
      waypoint on the way to it from the next one has dt 0. */
  lemma {:induction false} ConsumesIff(e: Exec, ws: seq<Waypoint>, since: u32, k: nat)
    requires e.index <= k < |ws| && OnPlan(e, ws) && PassLength(ws) < WORD
    ensures k < Consume(e, ws, since).index <==> Offset(ws, k) <= since && forall j | e.index < j <= k :: ws[j].dt > 0
    ensures OnPlan(Consume(e, ws, since), ws)
    decreases |ws| - e.index
  {
    OffsetMonotone(ws, e.index, k);
    if Due(e, ws, since) {
      var r := ConsumeOne(e, ws);
      ConsumeOneOnPlan(e, ws);
      if r.index < |ws| && ws[r.index].dt != 0 {
        if k > e.index {
          ConsumesIff(r, ws, since, k);
        } else {
          ConsumesIff(r, ws, since, r.index);
          ConsumeGoesOn(r, ws, since);
        }
      } else if r.index == |ws| {
        assert !Due(r, ws, since);
      }
    }
  }

  lemma {:induction false} ConsumeGoesOn(e: Exec, ws: seq<Waypoint>, since: u32)
    ensures Consume(e, ws, since).index >= e.index
    decreases |ws| - e.index
  {
    if Due(e, ws, since) { ConsumeGoesOn(ConsumeOne(e, ws), ws, since); }
  }

  lemma UpdateKeepsPlan(e: Exec, ws: seq<Waypoint>, d: Drive, now: u32)
    requires Active(e, ws) && e.mode == Running && OnPlan(e, ws) && PassLength(ws) < WORD
    ensures var u := Update(e, ws, d, now).0; u.mode == Running ==> OnPlan(u, ws)
  {
    ActedForm(e, ws, d, now);
    ConsumesIff(e, ws, Sub32(now, e.start), e.index);
  }

  lemma {:induction false} RunKeepsPlan(e: Exec, ws: seq<Waypoint>, d: Drive, times: seq<u32>)
    requires Active(e, ws) && e.mode != Idle && (e.mode == Running ==> OnPlan(e, ws)) && PassLength(ws) < WORD
    ensures var u := Updates(e, ws, d, times); Active(u, ws) && u.mode != Idle && (u.mode == Running ==> OnPlan(u, ws))
    decreases |times|
  {
    if times != [] {
      if e.mode == Running { UpdateKeepsPlan(e, ws, d, times[0]); }
      UpdateKeepsActive(e, ws, d, times[0]);
      RunKeepsPlan(Update(e, ws, d, times[0]).0, ws, d, times[1..]);
    }
  }

  /** The share of a pass that an update finds consumed after it: all of it if it closed the pass. */
  function ConsumedInPass(e: Exec, u: Exec, ws: seq<Waypoint>): nat
  {
    if u.passesDone > e.passesDone then |ws| else u.index
  }

  lemma UpdateIndex(e: Exec, ws: seq<Waypoint>, d: Drive, now: u32)
    requires Active(e, ws) && e.mode == Running
    ensures var u := Update(e, ws, d, now).0;
            ConsumedInPass(e, u, ws) == Consume(e, ws, Sub32(now, e.start)).index
  {
    ActedForm(e, ws, d, now);
    ConsumeShape(e, ws, Sub32(now, e.start));
  }

  /** Any update of any execution, told by readings alone: it consumes waypoint `k` of the pass under way if and
      only if the time since the reading that began the pass has reached the planned instant of `k`, and no
      waypoint after the next one up to `k` has dt 0. */
  lemma FallsDueIff(e: Exec, ws: seq<Waypoint>, d: Drive, t0: u32, t1: u32, times: seq<u32>, now: u32, k: nat)
    requires e.loaded && e.repeatTotal > 0 && ws != [] && SameWidth(ws) && PassLength(ws) < WORD
    requires Updates(Start(e, ws, t0, t1), ws, d, times).mode == Running
    requires Updates(Start(e, ws, t0, t1), ws, d, times).index <= k < |ws|
    ensures var s := Start(e, ws, t0, t1);
            var x := Updates(s, ws, d, times);
            && (k < ConsumedInPass(x, Update(x, ws, d, now).0, ws)
                <==> && Offset(ws, k) <= Sub32(now, PassReading(s, ws, d, times, t0))
                     && forall j | x.index < j <= k :: ws[j].dt > 0)
  {
    var s := Start(e, ws, t0, t1);
    var x := Updates(s, ws, d, times);
    StartIsActive(e, ws, t0, t1);
    RunKeepsPlan(s, ws, d, times);
    StartReadsTheClock(e, ws, d, t0, t1, times);
    UpdateIndex(x, ws, d, now);
    ConsumesIff(x, ws, Sub32(now, x.start), k);
  }

  /** The first update of an execution sends the arm no further from the first waypoint than its top speed
      allows since the second reading of the start. */
  lemma FirstWrite(e: Exec, ws: seq<Waypoint>, d: Drive, t0: u32, t1: u32, now: u32, ch: Channel)
    requires e.loaded && e.repeatTotal > 0 && ws != [] && SameWidth(ws) && t1 <= now
    requires Update(Start(e, ws, t0, t1), ws, d, now).1.Some?
    ensures var written := Update(Start(e, ws, t0, t1), ws, d, now).1.value;
            && |written| == |Home(ws)|
            && (ch < |written| ==> ch < |ws[0].joints| && AbsReal(written[ch] - ws[0].joints[ch]) <= MaxAdvance(ch, now - t1))
  {
    var s := Start(e, ws, t0, t1);
    StartIsActive(e, ws, t0, t1);
    UpdateSpeed(s, ws, d, now);
    WrittenIsPosition(s, ws, d, now);
    AdvanceMonotone(ch, Elapsed(s, now), now - t1);
  }

  lemma WrittenIsPosition(e: Exec, ws: seq<Waypoint>, d: Drive, now: u32)
    requires e.mode == Running && Steppable(e, ws)
    ensures Update(e, ws, d, now).1.Some? ==> Update(e, ws, d, now).1.value == Acted(e, ws, d, now).0.position
  {
  }

  // ----- Tracking by readings -----

  /** The tracking bound with the pass begun at the reading `from` and the last write at the reading `last`. */
  predicate TracksAt(e: Exec, ws: seq<Waypoint>, from: u32, last: u32, worst: nat)
  {
    && |e.position| == CHANNELS && Reached(e) < |ws| && |ws[Reached(e)].joints| >= CHANNELS
    && 0 <= LatenessAt(e, ws, from, last) <= worst
    && Near(e.position, ws[Reached(e)].joints, worst - LatenessAt(e, ws, from, last))
  }

  function LatenessAt(e: Exec, ws: seq<Waypoint>, from: u32, last: u32): int
    requires Reached(e) < |ws|
  {
    last - from - Offset(ws, Reached(e))
  }

  /** A ready driver, readings that have not wrapped, and no more than an hour from the last write to each update. */
  predicate PunctualAt(e: Exec, ws: seq<Waypoint>, d: Drive, times: seq<u32>, from: u32, last: u32)
    decreases |times|
  {
    times != [] && e.mode == Running ==>
      && d.Ready() && from <= last <= times[0] && times[0] - last <= MAX_ADVANCE_ELAPSED
      && var (u, written) := Update(e, ws, d, times[0]);
         PunctualAt(u, ws, d, times[1..], FromNext(e, u, times[0], from), LastNext(e, u, written, times[0], last))
  }

  /** The greatest lateness of the writes of a pass after one more update, by readings; a new pass starts at zero. */
  function WorstNext(e: Exec, u: Exec, ws: seq<Waypoint>, now: u32, from: u32, worst: nat): nat
  {
    var k := ConsumedInPass(e, u, ws);
    if BeginsPass(e, u) then 0
    else if e.index < k <= |ws| then Later(now - from - Offset(ws, k - 1), worst)
    else worst
  }

  function WorstAt(e: Exec, ws: seq<Waypoint>, d: Drive, times: seq<u32>, from: u32, worst: nat): nat
    decreases |times|
  {
    if times == [] || e.mode != Running then worst
    else
      var u := Update(e, ws, d, times[0]).0;
      WorstAt(u, ws, d, times[1..], FromNext(e, u, times[0], from), WorstNext(e, u, ws, times[0], from, worst))
  }

  lemma {:induction false} PunctualByReadings(e: Exec, ws: seq<Waypoint>, d: Drive, times: seq<u32>)
    requires Active(e, ws) && e.mode != Idle && PunctualAt(e, ws, d, times, e.start, e.lastWrite)
    ensures AllPunctual(e, ws, d, times)
    decreases |times|
  {
    if times != [] && e.mode == Running {
      UpdateClocks(e, ws, d, times[0]);
      UpdateKeepsActive(e, ws, d, times[0]);
      PunctualByReadings(Update(e, ws, d, times[0]).0, ws, d, times[1..]);
    }
  }

  lemma DueLateness(e: Exec, ws: seq<Waypoint>, d: Drive, now: u32, worst: nat)
    requires Followable(ws) && e.mode == Running && Safe(e, ws) && Tracks(e, ws, worst) && Punctual(e, d, now)
    requires Due(e, ws, Sub32(now, e.start))
    ensures var a := Acted(e, ws, d, now).0;
            && e.index < a.index <= |ws| && Lateness(a, ws) == now - e.start - Offset(ws, a.index - 1)
  {
    ActedTracks(e, ws, d, now, worst);
    ActedForm(e, ws, d, now);
  }

  /** One update: the worst lateness by readings is the worst lateness by fields. */
  lemma WorstStep(e: Exec, ws: seq<Waypoint>, d: Drive, now: u32, worst: nat)
    requires Followable(ws) && e.mode == Running && Active(e, ws) && Safe(e, ws) && Tracks(e, ws, worst) && Punctual(e, d, now)
    ensures WorstAfter(e, ws, d, now, worst) == WorstNext(e, Update(e, ws, d, now).0, ws, now, e.start, worst)
  {
    var a, u := Acted(e, ws, d, now).0, Update(e, ws, d, now).0;
    ActedIndex(e, ws, d, now);
    if Due(e, ws, Sub32(now, e.start)) { DueLateness(e, ws, d, now, worst); }
  }

  lemma ActedIndex(e: Exec, ws: seq<Waypoint>, d: Drive, now: u32)
    requires Active(e, ws) && e.mode == Running
    ensures var a := Acted(e, ws, d, now).0;
            && ConsumedInPass(e, Update(e, ws, d, now).0, ws) == a.index <= |ws|
            && (!Due(e, ws, Sub32(now, e.start)) ==> a.index == e.index)
  {
    UpdateIndex(e, ws, d, now);
    ActedForm(e, ws, d, now);
    ConsumeShape(e, ws, Sub32(now, e.start));
  }

  lemma {:induction false} WorstByReadings(e: Exec, ws: seq<Waypoint>, d: Drive, times: seq<u32>, worst: nat)
    requires Followable(ws) && Active(e, ws) && e.mode != Idle && Safe(e, ws) && Tracks(e, ws, worst)
    requires AllPunctual(e, ws, d, times)
    ensures WorstOf(e, ws, d, times, worst) == WorstAt(e, ws, d, times, e.start, worst)
    decreases |times|
  {
    if times != [] && e.mode == Running {
      WorstStep(e, ws, d, times[0], worst);
      UpdateClocks(e, ws, d, times[0]);
      UpdateKeepsActive(e, ws, d, times[0]);
      UpdateTracks(e, ws, d, times[0], worst);
      WorstByReadings(Update(e, ws, d, times[0]).0, ws, d, times[1..], WorstAfter(e, ws, d, times[0], worst));
    }
  }

  lemma TracksByFields(e: Exec, ws: seq<Waypoint>, worst: nat)
    requires Tracks(e, ws, worst)
    ensures TracksAt(e, ws, e.start, e.lastWrite, worst)
  {
  }

  lemma RunByReadings(e: Exec, ws: seq<Waypoint>, d: Drive, times: seq<u32>, worst: nat)
    requires Followable(ws) && Active(e, ws) && e.mode != Idle && Safe(e, ws) && Tracks(e, ws, worst)
    requires PunctualAt(e, ws, d, times, e.start, e.lastWrite)
    ensures TracksAt(Updates(e, ws, d, times), ws, PassReading(e, ws, d, times, e.start),
                     WriteReading(e, ws, d, times, e.lastWrite), WorstAt(e, ws, d, times, e.start, worst))
  {
    ClocksAreReadings(e, ws, d, times);
    PunctualByReadings(e, ws, d, times);
    WorstByReadings(e, ws, d, times, worst);
    TrackingError(e, ws, d, times, worst);
    TracksByFields(Updates(e, ws, d, times), ws, WorstOf(e, ws, d, times, worst));
  }

  /** The updates of an execution started at the readings `t0` and `t1` are punctual. */
  predicate PunctualFrom(e: Exec, ws: seq<Waypoint>, d: Drive, t0: u32, t1: u32, times: seq<u32>)
  {
    t0 <= t1 && PunctualAt(Start(e, ws, t0, t1), ws, d, times, t0, t1)
  }

  /** After the updates of such an execution the tracking bound holds. */
  predicate TracksFrom(e: Exec, ws: seq<Waypoint>, d: Drive, t0: u32, t1: u32, times: seq<u32>)
    requires t0 <= t1
  {
    var s := Start(e, ws, t0, t1);
    TracksAt(Updates(s, ws, d, times), ws, PassReading(s, ws, d, times, t0), WriteReading(s, ws, d, times, t1),
             WorstAt(s, ws, d, times, t0, t1 - t0))
  }

  /** The tracking bound from the start on, told by readings alone. */
  lemma TrackingByReadings(e: Exec, ws: seq<Waypoint>, d: Drive, t0: u32, t1: u32, times: seq<u32>)
    requires e.loaded && e.repeatTotal > 0 && Followable(ws) && ws != [] && PunctualFrom(e, ws, d, t0, t1, times)
    ensures TracksFrom(e, ws, d, t0, t1, times)
  {
    var s := Start(e, ws, t0, t1);
    assert SameWidth(ws);
    StartTracks(e, ws, t0, t1);
    StartIsActive(e, ws, t0, t1);
    RunByReadings(s, ws, d, times, t1 - t0);
  }
}
