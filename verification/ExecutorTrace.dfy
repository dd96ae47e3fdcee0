/** The bounded execution trace: what the sample buffer holds when execution is done. */
module ExecutorTrace {
  import opened Prelude
  import opened Words
  import opened Manifests
  import opened Servos
  import opened ExecutorModel
  import opened ExecutorScheduling

  /** The instant at which pass `pass` begins when every pass takes its planned length. */
  function PassStart(ws: seq<Waypoint>, pass: nat): nat
  {
    if pass == 0 then 0 else PassStart(ws, pass - 1) + PassLength(ws)
  }

  lemma {:induction false} PassStartIsProduct(ws: seq<Waypoint>, pass: nat)
    ensures PassStart(ws, pass) == pass * PassLength(ws)
  {
    if pass > 0 { PassStartIsProduct(ws, pass - 1); }
  }

  lemma {:induction false} PassStartMonotone(ws: seq<Waypoint>, p: nat, q: nat)
    requires p <= q
    ensures PassStart(ws, p) <= PassStart(ws, q)
  {
    if p < q { PassStartMonotone(ws, p, q - 1); }
  }

  /** The instant, counted from the start of the execution, at which waypoint `k` of pass `pass` is planned. */
  function Stamp(ws: seq<Waypoint>, pass: nat, k: nat): nat
    requires k < |ws|
  {
    PassStart(ws, pass) + Offset(ws, k)
  }

  /** Planned instants never decrease, within a pass and from one pass to the next. */
  lemma StampMonotone(ws: seq<Waypoint>, p: nat, i: nat, q: nat, j: nat)
    requires i < |ws| && j < |ws|
    requires p < q || (p == q && i <= j)
    ensures Stamp(ws, p, i) <= Stamp(ws, q, j)
  {
    if p == q {
      OffsetMonotone(ws, i, j);
    } else {
      OffsetMonotone(ws, i, |ws| - 1);
      PassStartMonotone(ws, p + 1, q);
    }
  }

  /** The buffer slots below `k` hold the waypoints of pass `pass`, stamped on the wrapping 32-bit clock. */
  predicate Retains(slots: seq<Sample>, ws: seq<Waypoint>, pass: nat, k: nat)
    requires k <= |ws| && k <= |slots|
  {
    forall i | 0 <= i < k :: slots[i] == Sample(Stamp(ws, pass, i) % WORD, ws[i].joints)
  }

  /** What the trace fields say of an execution whose buffer was not cleared after `Load`. */
  predicate TraceFields(e: Exec, ws: seq<Waypoint>)
  {
    && |e.slots| == |ws| && e.next <= |ws|
    && e.passDuration == PassLength(ws) % WORD
    && (e.mode == Running ==>
          && e.next == e.index < |ws|
          && e.target == Offset(ws, e.index) % WORD
          && e.timeBase == PassStart(ws, e.passesDone) % WORD
          && Retains(e.slots, ws, e.passesDone, e.next))
    && (e.mode == Done ==> e.repeatTotal > 0 && e.next == |ws| && Retains(e.slots, ws, e.repeatTotal - 1, e.next))
  }

  predicate Tracing(e: Exec, ws: seq<Waypoint>)
  {
    Active(e, ws) && TraceFields(e, ws)
  }

  /** Mid-update: the same facts, where the index may have reached the end of the pass. */
  predicate Scanning(e: Exec, ws: seq<Waypoint>)
  {
    && |e.slots| == |ws| && e.next == e.index <= |ws|
    && e.timeBase == PassStart(ws, e.passesDone) % WORD
    && (e.index < |ws| ==> e.target == Offset(ws, e.index) % WORD)
    && Retains(e.slots, ws, e.passesDone, e.next)
  }

  lemma ConsumeOneScans(e: Exec, ws: seq<Waypoint>)
    requires Scanning(e, ws) && e.index < |ws|
    ensures Scanning(ConsumeOne(e, ws), ws)
  {
    Add32Mod(PassStart(ws, e.passesDone), Offset(ws, e.index));
    if e.index + 1 < |ws| {
      assert ws[e.index + 1].dt % WORD == ws[e.index + 1].dt;
      Add32Mod(Offset(ws, e.index), ws[e.index + 1].dt);
    }
  }

  lemma {:induction false} ConsumeScans(e: Exec, ws: seq<Waypoint>, since: u32)
    requires Scanning(e, ws)
    ensures Scanning(Consume(e, ws, since), ws)
    decreases |ws| - e.index
  {
    if Due(e, ws, since) {
      ConsumeOneScans(e, ws);
      ConsumeScans(ConsumeOne(e, ws), ws, since);
    }
  }

  lemma EndPassTraces(e: Exec, ws: seq<Waypoint>, now: u32)
    requires ws != [] && Scanning(e, ws) && e.mode == Running && e.passesDone < e.repeatTotal
    requires e.passDuration == PassLength(ws) % WORD
    ensures TraceFields(EndPass(e, ws, now), ws)
  {
    Add32Mod(PassStart(ws, e.passesDone), PassLength(ws));
  }

  lemma UpdateTraces(e: Exec, ws: seq<Waypoint>, d: Drive, now: u32)
    requires Tracing(e, ws) && e.mode == Running
    ensures Tracing(Update(e, ws, d, now).0, ws)
  {
    var since := Sub32(now, e.start);
    ConsumeShape(e, ws, since);
    ConsumeScans(e, ws, since);
    EndPassTraces(Acted(e, ws, d, now).0, ws, now);
    UpdateAdvances(e, ws, d, now);
  }

  lemma {:induction false} UpdatesTrace(e: Exec, ws: seq<Waypoint>, d: Drive, times: seq<u32>)
    requires Tracing(e, ws)
    ensures Tracing(Updates(e, ws, d, times), ws)
    ensures Updates(e, ws, d, times).repeatTotal == e.repeatTotal
    decreases |times|
  {
    if times != [] {
      if e.mode == Running {
        UpdateTraces(e, ws, d, times[0]);
        UpdateAdvances(e, ws, d, times[0]);
      }
      UpdatesTrace(Update(e, ws, d, times[0]).0, ws, d, times[1..]);
    }
  }

  /** At the end of an execution that was loaded, started and run to completion at any times,
      the buffer holds every waypoint of the last pass, once and in order, each with its
      planned instant on the 32-bit clock. */
  lemma TraceIsExact(e: Exec, m: Plan, d: Drive, t0: u32, t1: u32, times: seq<u32>)
    requires m.samples != [] && m.meta.repeatCount > 0
    requires forall i | 0 <= i < |m.samples| :: |Actuated(m.samples[i].joints)| == |Home(m.samples)|
    ensures var u := Updates(Start(Load(e, m), m.samples, t0, t1), m.samples, d, times);
            && u.next <= |u.slots| == |m.samples|
            && (u.mode == Done ==>
                  && u.next == |m.samples|
                  && Retains(u.slots, m.samples, m.meta.repeatCount - 1, |m.samples|))
  {
    var s := Start(Load(e, m), m.samples, t0, t1);
    assert Tracing(s, m.samples);
    UpdatesTrace(s, m.samples, d, times);
    UpdatesKeepActive(s, m.samples, d, times);
  }

  /** The recorded stamps are the planned instants themselves exactly when the whole
      execution fits the 32-bit clock. */
  lemma StampsExactIff(slots: seq<Sample>, m: Plan)
    requires m.samples != [] && m.meta.repeatCount > 0 && |slots| == |m.samples|
    requires Retains(slots, m.samples, m.meta.repeatCount - 1, |m.samples|)
    ensures (forall i | 0 <= i < |m.samples| ::
               slots[i].timestamp == Stamp(m.samples, m.meta.repeatCount - 1, i))
            <==> m.meta.repeatCount * PassLength(m.samples) < WORD
  {
    var ws, last := m.samples, m.meta.repeatCount - 1;
    PassStartIsProduct(ws, m.meta.repeatCount);
    assert Stamp(ws, last, |ws| - 1) == PassStart(ws, m.meta.repeatCount);
    forall i | 0 <= i < |ws|
      ensures Stamp(ws, last, i) <= Stamp(ws, last, |ws| - 1)
    {
      StampMonotone(ws, last, i, last, |ws| - 1);
    }
    if forall i | 0 <= i < |ws| :: slots[i].timestamp == Stamp(ws, last, i) {
      assert slots[|ws| - 1].timestamp == Stamp(ws, last, |ws| - 1);
    }
  }
}
